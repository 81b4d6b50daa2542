/** CRC-16/CCITT as the file server computes it, and the errors it cannot miss. */
module HostFsCrc {
  type Byte = bv8
  type Word = bv16

  const BYTE_BITS: nat := 8

  function Xor(a: Word, b: Word): Word {
    a ^ b
  }

  /** A byte in the low and in the high half of a word. */
  function Low(x: Byte): Word {
    x as Word
  }

  function High(x: Byte): Word {
    (x as Word) << 8
  }

  /** One bit: shift out the top bit, fold it back in with the polynomial. */
  function Bit(c: Word): Word {
    if c & 0x8000 != 0 then (c << 1) ^ 0x1021 else c << 1
  }

  function Bits(c: Word, n: nat): Word {
    if n == 0 then c else Bit(Bits(c, n - 1))
  }

  /** One byte: into the high half, then eight bits. */
  function Absorb(c: Word, x: Byte): Word {
    Bits(Xor(c, High(x)), BYTE_BITS)
  }

  function Crc(data: seq<Byte>): Word {
    if data == [] then 0xffff else Absorb(Crc(data[..|data| - 1]), data[|data| - 1])
  }

  // ---- The steps are linear ----

  lemma ShiftXor(a: Word, b: Word)
    ensures (a ^ b) << 1 == (a << 1) ^ (b << 1)
  {
  }

  lemma TopXor(a: Word, b: Word)
    ensures (a ^ b) & 0x8000 == (a & 0x8000) ^ (b & 0x8000)
    ensures a & 0x8000 in {0, 0x8000} && b & 0x8000 in {0, 0x8000}
  {
  }

  lemma XorMoves(x: Word, y: Word, p: Word)
    ensures (x ^ p) ^ (y ^ p) == x ^ y && (x ^ p) ^ y == (x ^ y) ^ p && x ^ (y ^ p) == (x ^ y) ^ p
  {
  }

  lemma BitLinear(a: Word, b: Word)
    ensures Bit(Xor(a, b)) == Xor(Bit(a), Bit(b))
  {
    ShiftXor(a, b);
    TopXor(a, b);
    XorMoves(a << 1, b << 1, 0x1021);
  }

  lemma {:induction false} BitsLinear(a: Word, b: Word, n: nat)
    ensures Bits(Xor(a, b), n) == Xor(Bits(a, n), Bits(b, n))
  {
    hide Bit, Xor;
    if n > 0 {
      BitsLinear(a, b, n - 1);
      BitLinear(Bits(a, n - 1), Bits(b, n - 1));
    }
  }

  lemma FoldedIsOdd(c: Word)
    ensures (c << 1) ^ 0x1021 != 0
  {
    assert ((c << 1) ^ 0x1021) & 1 == 1;
  }

  lemma ShiftedOut(c: Word)
    requires c & 0x8000 == 0 && c << 1 == 0
    ensures c == 0
  {
  }

  /** Only zero is taken to zero. */
  lemma BitZero(c: Word)
    requires Bit(c) == 0
    ensures c == 0
  {
    if c & 0x8000 != 0 { FoldedIsOdd(c); } else { ShiftedOut(c); }
  }

  lemma {:induction false} BitsZero(c: Word, n: nat)
    requires Bits(c, n) == 0
    ensures c == 0
  {
    hide Bit;
    if n > 0 {
      BitZero(Bits(c, n - 1));
      BitsZero(c, n - 1);
    }
  }

  lemma XorZero(a: Word, b: Word)
    ensures Xor(a, b) == 0 <==> a == b
  {
  }

  lemma BitsInjective(a: Word, b: Word, n: nat)
    requires Bits(a, n) == Bits(b, n)
    ensures a == b
  {
    hide Bits, Xor;
    BitsLinear(a, b, n);
    XorZero(Bits(a, n), Bits(b, n));
    BitsZero(Xor(a, b), n);
    XorZero(a, b);
  }

  lemma XorCancels(a: Word, b: Word, x: Word)
    ensures Xor(a, x) == Xor(b, x) <==> a == b
    ensures Xor(x, a) == Xor(x, b) <==> a == b
  {
    assert (a ^ x) ^ x == a && (b ^ x) ^ x == b && x ^ (x ^ a) == a && x ^ (x ^ b) == b;
  }

  lemma HighByte(x: Byte, y: Byte)
    requires High(x) == High(y)
    ensures x == y
  {
    assert High(x) >> 8 == Low(x) && High(y) >> 8 == Low(y);
  }

  /** Absorbing a byte is injective in the state and in the byte. */
  lemma AbsorbInjective(a: Word, x: Byte, b: Word, y: Byte)
    requires Absorb(a, x) == Absorb(b, y)
    ensures x == y ==> a == b
    ensures a == b ==> x == y
  {
    hide Bits, Xor, High;
    BitsInjective(Xor(a, High(x)), Xor(b, High(y)), BYTE_BITS);
    if x == y { XorCancels(a, b, High(x)); }
    if a == b {
      XorCancels(High(x), High(y), a);
      HighByte(x, y);
    }
  }

  /** A common tail separates nothing that was equal before it, and joins nothing. */
  lemma {:induction false} TailKeepsApart(a: seq<Byte>, b: seq<Byte>, tail: seq<Byte>)
    ensures Crc(a + tail) == Crc(b + tail) <==> Crc(a) == Crc(b)
  {
    hide Absorb;
    if tail == [] {
      assert a + tail == a && b + tail == b;
    } else {
      var n := |tail| - 1;
      assert (a + tail)[..|a + tail| - 1] == a + tail[..n] && (b + tail)[..|b + tail| - 1] == b + tail[..n];
      TailKeepsApart(a, b, tail[..n]);
      if Crc(a + tail) == Crc(b + tail) { AbsorbInjective(Crc(a + tail[..n]), tail[n], Crc(b + tail[..n]), tail[n]); }
    }
  }

  /** Two contents that differ in exactly one byte have different checksums. */
  lemma OneByteDetected(head: seq<Byte>, x: Byte, y: Byte, tail: seq<Byte>)
    requires x != y
    ensures Crc(head + [x] + tail) != Crc(head + [y] + tail)
  {
    hide Absorb;
    assert (head + [x])[..|head|] == head && (head + [y])[..|head|] == head;
    TailKeepsApart(head + [x], head + [y], tail);
    if Crc(head + [x]) == Crc(head + [y]) { AbsorbInjective(Crc(head), x, Crc(head), y); }
  }

  // ---- Bursts ----

  lemma {:induction false} BitsAdd(c: Word, m: nat, n: nat)
    ensures Bits(Bits(c, m), n) == Bits(c, m + n)
  {
    hide Bit;
    if n > 0 { BitsAdd(c, m, n - 1); }
  }

  /** Below the top bit nothing is folded back. */
  lemma PlainShift(c: Word)
    requires c < 0x8000
    ensures Bit(c) == c << 1
  {
  }

  lemma Shifts(w: Word)
    requires w < 0x100
    ensures w << 1 < 0x8000 && w << 2 < 0x8000 && w << 3 < 0x8000 && w << 4 < 0x8000 && w << 5 < 0x8000
    ensures w << 6 < 0x8000 && w << 7 < 0x8000
    ensures (w << 1) << 1 == w << 2 && (w << 2) << 1 == w << 3 && (w << 3) << 1 == w << 4 && (w << 4) << 1 == w << 5
    ensures (w << 5) << 1 == w << 6 && (w << 6) << 1 == w << 7 && (w << 7) << 1 == w << 8
  {
  }

  /** Eight bits of a low byte only move it up. */
  lemma LowByteMoves(x: Byte)
    ensures Bits(Low(x), BYTE_BITS) == High(x)
  {
    hide Bit;
    var w := Low(x);
    assert w < 0x100;
    Shifts(w);
    PlainShift(w);
    PlainShift(w << 1);
    PlainShift(w << 2);
    PlainShift(w << 3);
    PlainShift(w << 4);
    PlainShift(w << 5);
    PlainShift(w << 6);
    PlainShift(w << 7);
    assert Bits(w, 1) == w << 1;
    assert Bits(w, 2) == w << 2;
    assert Bits(w, 3) == w << 3;
    assert Bits(w, 4) == w << 4;
    assert Bits(w, 5) == w << 5;
    assert Bits(w, 6) == w << 6;
    assert Bits(w, 7) == w << 7;
    assert Bits(w, 8) == w << 8;
  }

  /** Two bytes go in as one 16-bit word. */
  lemma AbsorbTwo(c: Word, x: Byte, y: Byte)
    ensures Absorb(Absorb(c, x), y) == Bits(Xor(Xor(c, High(x)), Low(y)), BYTE_BITS + BYTE_BITS)
  {
    hide Bits, Xor, High, Low;
    var z := Xor(c, High(x));
    LowByteMoves(y);
    BitsLinear(z, Low(y), BYTE_BITS);
    BitsAdd(Xor(z, Low(y)), BYTE_BITS, BYTE_BITS);
  }

  lemma Halves(c: Word, x: Byte, y: Byte)
    ensures Xor(c, Xor(Xor(c, High(x)), Low(y))) >> 8 == Low(x) && Xor(c, Xor(Xor(c, High(x)), Low(y))) & 0xff == Low(y)
  {
    assert c ^ ((c ^ High(x)) ^ Low(y)) == High(x) ^ Low(y);
  }

  lemma WordOfTwo(c: Word, x: Byte, y: Byte, x': Byte, y': Byte)
    requires Xor(Xor(c, High(x)), Low(y)) == Xor(Xor(c, High(x')), Low(y'))
    ensures x == x' && y == y'
  {
    hide Xor, High;
    Halves(c, x, y);
    Halves(c, x', y');
  }

  /** Any error confined to two neighbouring bytes changes the checksum. */
  lemma BurstDetected(head: seq<Byte>, x: Byte, y: Byte, x': Byte, y': Byte, tail: seq<Byte>)
    requires x != x' || y != y'
    ensures Crc(head + [x, y] + tail) != Crc(head + [x', y'] + tail)
  {
    hide Bits, Xor, High, Low, Absorb;
    TailKeepsApart(head + [x, y], head + [x', y'], tail);
    CrcOfTwo(head, x, y);
    CrcOfTwo(head, x', y');
    var c := Crc(head);
    AbsorbTwo(c, x, y);
    AbsorbTwo(c, x', y');
    if Crc(head + [x, y]) == Crc(head + [x', y']) {
      BitsInjective(Xor(Xor(c, High(x)), Low(y)), Xor(Xor(c, High(x')), Low(y')), BYTE_BITS + BYTE_BITS);
      WordOfTwo(c, x, y, x', y');
    }
  }

  lemma CrcOfTwo(head: seq<Byte>, x: Byte, y: Byte)
    ensures Crc(head + [x, y]) == Absorb(Absorb(Crc(head), x), y)
  {
    hide Absorb;
    assert (head + [x, y])[..|head| + 1] == head + [x] && (head + [x])[..|head|] == head;
  }
}
