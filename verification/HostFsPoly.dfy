/** The checksum of the file server is the remainder of a polynomial division over GF(2): the
    message, with sixteen ones added to its first bits and sixteen zeros behind it, divided by
    x^16 + x^12 + x^5 + 1. */
module HostFsPoly {
  import opened HostFsCrc

  /** A polynomial by its coefficients, highest power first. */
  type Poly = seq<bool>

  const DEGREE: nat := 16

  function Zeros(n: nat): Poly {
    seq(n, _ => false)
  }

  function Ones(n: nat): Poly {
    seq(n, _ => true)
  }

  /** Addition over GF(2). */
  function Plus(a: Poly, b: Poly): (r: Poly)
    requires |a| == |b|
    ensures |r| == |a| && forall i :: 0 <= i < |a| ==> r[i] == (a[i] != b[i])
  {
    seq(|a|, i requires 0 <= i < |a| => a[i] != b[i])
  }

  /** `q` times x^16 + x^12 + x^5 + 1. */
  function Times(q: Poly): (r: Poly)
    ensures |r| == |q| + DEGREE
  {
    Plus(Plus(q + Zeros(16), Zeros(4) + q + Zeros(12)), Plus(Zeros(11) + q + Zeros(5), Zeros(16) + q))
  }

  /** The bit of a word that stands for coefficient `i`. */
  function Mask(i: nat): Word {
    if i == 0 then 0x8000 else Mask(i - 1) >> 1
  }

  predicate Has(c: Word, mask: Word) {
    c & mask != 0
  }

  function WordBits(c: Word): (r: Poly)
    ensures |r| == 16
  {
    seq(16, i requires 0 <= i < 16 => Has(c, Mask(i)))
  }

  function ByteBits(x: Byte): (r: Poly)
    ensures |r| == 8
  {
    seq(8, i requires 0 <= i < 8 => Has(Low(x), Mask(8 + i)))
  }

  function Message(data: seq<Byte>): (r: Poly)
    ensures |r| == 8 * |data|
  {
    if data == [] then [] else Message(data[..|data| - 1]) + ByteBits(data[|data| - 1])
  }

  /** What is divided. */
  function Dividend(data: seq<Byte>): (r: Poly)
    ensures |r| == 8 * |data| + DEGREE
  {
    Plus(Message(data) + Zeros(16), Ones(16) + Zeros(8 * |data|))
  }

  /** `p` is `q` times the divisor, plus the remainder `c`. */
  predicate Divides(p: Poly, q: Poly, c: Word) {
    |p| == |q| + DEGREE && p == Plus(Times(q), Zeros(|q|) + WordBits(c))
  }

  // ---- Coefficients ----

  function At(p: Poly, i: int): bool {
    0 <= i < |p| && p[i]
  }

  lemma TimesAt(q: Poly, j: int)
    ensures At(Times(q), j) == (((At(q, j) != At(q, j - 4)) != At(q, j - 11)) != At(q, j - 16))
  {
  }

  lemma SameCoefficients(a: Poly, b: Poly)
    requires |a| == |b| && forall i :: 0 <= i < |a| ==> At(a, i) == At(b, i)
    ensures a == b
  {
    assert forall i :: 0 <= i < |a| ==> a[i] == At(a, i) && b[i] == At(b, i);
  }

  lemma TimesConcat(a: Poly, b: Poly)
    ensures Times(a + b) == Plus(Times(a) + Zeros(|b|), Zeros(|a|) + Times(b))
  {
    hide Times;
    var l, r := Times(a + b), Plus(Times(a) + Zeros(|b|), Zeros(|a|) + Times(b));
    forall j | 0 <= j < |l| ensures At(l, j) == At(r, j) {
      TimesAt(a + b, j);
      TimesAt(a, j);
      TimesAt(b, j - |a|);
      ConcatAt(a, b, j);
      ConcatAt(a, b, j - 4);
      ConcatAt(a, b, j - 11);
      ConcatAt(a, b, j - 16);
      ConcatAt(Times(a), Zeros(|b|), j);
      ConcatAt(Zeros(|a|), Times(b), j);
    }
    SameCoefficients(l, r);
  }

  lemma ConcatAt(a: Poly, b: Poly, j: int)
    ensures At(a + b, j) == (if j < |a| then At(a, j) else At(b, j - |a|)) == (At(a, j) != At(b, j - |a|))
  {
  }

  // ---- One bit ----

  lemma Masks()
    ensures Mask(0) == 0x8000 && Mask(1) == 0x4000 && Mask(2) == 0x2000 && Mask(3) == 0x1000 && Mask(4) == 0x800
    ensures Mask(5) == 0x400 && Mask(6) == 0x200 && Mask(7) == 0x100 && Mask(8) == 0x80 && Mask(9) == 0x40
    ensures Mask(10) == 0x20 && Mask(11) == 0x10 && Mask(12) == 0x8 && Mask(13) == 0x4 && Mask(14) == 0x2
    ensures Mask(15) == 0x1
  {
    assert Mask(0) == 0x8000;
    assert Mask(1) == 0x4000;
    assert Mask(2) == 0x2000;
    assert Mask(3) == 0x1000;
    assert Mask(4) == 0x800;
    assert Mask(5) == 0x400;
    assert Mask(6) == 0x200;
    assert Mask(7) == 0x100;
    assert Mask(8) == 0x80;
    assert Mask(9) == 0x40;
    assert Mask(10) == 0x20;
    assert Mask(11) == 0x10;
    assert Mask(12) == 0x8;
    assert Mask(13) == 0x4;
    assert Mask(14) == 0x2;
    assert Mask(15) == 0x1;
  }

  /** A mask that picks out one bit. */
  predicate OneBit(mask: Word) {
    mask in {0x8000, 0x4000, 0x2000, 0x1000, 0x800, 0x400, 0x200, 0x100, 0x80, 0x40, 0x20, 0x10, 0x8, 0x4, 0x2, 0x1}
  }

  lemma MaskIsOneBit(i: nat)
    requires i < 16
    ensures OneBit(Mask(i))
  {
    Masks();
  }

  lemma OneBitOf(c: Word, mask: Word)
    requires OneBit(mask)
    ensures mask != 0 && (c & mask == 0 || c & mask == mask)
  {
  }

  lemma MaskXor(a: Word, b: Word, mask: Word)
    ensures Xor(a, b) & mask == Xor(a & mask, b & mask)
  {
  }

  lemma XorOneBit(mask: Word)
    ensures Xor(mask, mask) == 0 && Xor(0, mask) == mask && Xor(mask, 0) == mask && Xor(0, 0) == 0
  {
  }

  lemma HasXor(a: Word, b: Word, mask: Word)
    requires OneBit(mask)
    ensures Has(Xor(a, b), mask) == (Has(a, mask) != Has(b, mask))
  {
    hide Xor, OneBit;
    MaskXor(a, b, mask);
    OneBitOf(a, mask);
    OneBitOf(b, mask);
    XorOneBit(mask);
  }

  lemma HasShift(c: Word, mask: Word)
    ensures Has(c << 1, mask) == Has(c, mask >> 1)
  {
  }

  /** The divisor without its highest power. */
  lemma DivisorBits(i: nat)
    requires i < 16
    ensures Has(0x1021, Mask(i)) <==> i == 3 || i == 10 || i == 15
  {
    Masks();
  }

  /** The next state by its bits: one place up, and the top bit into three places. */
  lemma NextBit(c: Word, i: nat)
    requires i < 16
    ensures Has(Bit(c), Mask(i)) ==
      ((i < 15 && Has(c, Mask(i + 1))) != (Has(c, Mask(0)) && (i == 3 || i == 10 || i == 15)))
  {
    hide Has;
    MaskIsOneBit(i);
    HasShift(c, Mask(i));
    HasXor(c << 1, 0x1021, Mask(i));
    DivisorBits(i);
    TopBit(c);
    if i == 15 { LastMask(c); }
  }

  lemma TopBit(c: Word)
    ensures Bit(c) == if Has(c, Mask(0)) then Xor(c << 1, 0x1021) else c << 1
  {
  }

  lemma LastMask(c: Word)
    ensures !Has(c, Mask(15) >> 1)
  {
    Masks();
  }

  /** Shifting one bit out divides by one more power. */
  lemma BitDivides(c: Word)
    ensures Divides(WordBits(c) + [false], [WordBits(c)[0]], Bit(c))
  {
    hide Bit, Times, Has, Mask;
    var w, t := WordBits(c), [WordBits(c)[0]];
    var l, r := w + [false], Plus(Times(t), Zeros(1) + WordBits(Bit(c)));
    forall j | 0 <= j < 17 ensures At(l, j) == At(r, j) {
      TimesAt(t, j);
      if j > 0 { NextBit(c, j - 1); }
    }
    SameCoefficients(l, r);
  }

  // ---- Many bits ----

  /** A division goes on: `k` more zeros behind the dividend, the remainder divided on. */
  lemma DivideOn(p: Poly, q: Poly, c: Word, q': Poly, c': Word)
    requires Divides(p, q, c) && Divides(WordBits(c) + Zeros(|q'|), q', c')
    ensures Divides(p + Zeros(|q'|), q + q', c')
  {
    hide WordBits, Times;
    var k := |q'|;
    TimesConcat(q, q');
    var l, r := p + Zeros(k), Plus(Times(q + q'), Zeros(|q + q'|) + WordBits(c'));
    forall j | 0 <= j < |l| ensures At(l, j) == At(r, j) {
      PlusAt(Times(q), Zeros(|q|) + WordBits(c), j);
      PlusAt(Times(q'), Zeros(k) + WordBits(c'), j - |q|);
      PlusAt(Times(q) + Zeros(k), Zeros(|q|) + Times(q'), j);
      PlusAt(Times(q + q'), Zeros(|q + q'|) + WordBits(c'), j);
      ConcatAt(p, Zeros(k), j);
      ConcatAt(Zeros(|q|), WordBits(c), j);
      ConcatAt(WordBits(c), Zeros(k), j - |q|);
      ConcatAt(Zeros(k), WordBits(c'), j - |q|);
      ConcatAt(Zeros(|q + q'|), WordBits(c'), j);
      ConcatAt(Times(q), Zeros(k), j);
      ConcatAt(Zeros(|q|), Times(q'), j);
    }
    SameCoefficients(l, r);
  }

  lemma PlusAt(a: Poly, b: Poly, j: int)
    requires |a| == |b|
    ensures At(Plus(a, b), j) == (At(a, j) != At(b, j))
  {
  }

  lemma NothingDivides(c: Word)
    ensures Divides(WordBits(c), [], c)
  {
    hide WordBits;
    var r := Plus(Times([]), Zeros(0) + WordBits(c));
    forall j | 0 <= j < 16 ensures At(WordBits(c), j) == At(r, j) { TimesAt([], j); }
    SameCoefficients(WordBits(c), r);
  }

  /** `n` steps of the register divide by `n` more powers. */
  lemma {:induction false} BitsDivide(c: Word, n: nat) returns (q: Poly)
    ensures |q| == n && Divides(WordBits(c) + Zeros(n), q, Bits(c, n))
  {
    hide Bit, WordBits, Divides;
    if n == 0 {
      q := [];
      NothingDivides(c);
      assert WordBits(c) + Zeros(0) == WordBits(c);
    } else {
      var q0 := BitsDivide(c, n - 1);
      var d := Bits(c, n - 1);
      var t := [WordBits(d)[0]];
      BitDivides(d);
      assert Zeros(1) == [false];
      DivideOn(WordBits(c) + Zeros(n - 1), q0, d, t, Bit(d));
      q := q0 + t;
      assert WordBits(c) + Zeros(n - 1) + Zeros(1) == WordBits(c) + Zeros(n);
    }
  }

  // ---- One byte ----

  lemma XorPlus(a: Word, b: Word)
    ensures WordBits(Xor(a, b)) == Plus(WordBits(a), WordBits(b))
  {
    hide Has, Xor, Mask;
    forall i | 0 <= i < 16 ensures Has(Xor(a, b), Mask(i)) == (Has(a, Mask(i)) != Has(b, Mask(i))) {
      MaskIsOneBit(i);
      HasXor(a, b, Mask(i));
    }
  }

  lemma HighMask(x: Byte, i: nat)
    requires i < 16
    ensures Has(High(x), Mask(i)) == (i < 8 && Has(Low(x), Mask(8 + i)))
  {
    Masks();
  }

  lemma HighBits(x: Byte)
    ensures WordBits(High(x)) == ByteBits(x) + Zeros(8)
  {
    hide Has, High, Low, Mask;
    var l, r := WordBits(High(x)), ByteBits(x) + Zeros(8);
    forall i | 0 <= i < 16 ensures l[i] == r[i] { HighMask(x, i); }
  }

  /** A byte goes into the high half: it is added eight powers above the end. */
  lemma XorAdds(c: Word, x: Byte)
    ensures WordBits(Xor(c, High(x))) == Plus(WordBits(c), ByteBits(x) + Zeros(8))
  {
    hide WordBits, ByteBits, Xor, High;
    XorPlus(c, High(x));
    HighBits(x);
  }

  lemma ByteDivides(p: Poly, q: Poly, c: Word, x: Byte) returns (q': Poly)
    requires Divides(p, q, c)
    ensures |q'| == |q| + 8
    ensures Divides(Plus(p + Zeros(8), Zeros(|q|) + (ByteBits(x) + Zeros(16))), q', Absorb(c, x))
  {
    hide Bits, WordBits, ByteBits, Xor, High, Divides;
    var c1 := Xor(c, High(x));
    var e := BitsDivide(c1, 8);
    AddByte(p, q, c, x);
    DivideOn(Plus(p, Zeros(|q|) + (ByteBits(x) + Zeros(8))), q, c1, e, Absorb(c, x));
    q' := q + e;
    MoveUp(p, Zeros(|q|), ByteBits(x));
  }

  lemma AddByte(p: Poly, q: Poly, c: Word, x: Byte)
    requires Divides(p, q, c)
    ensures |p| == |q| + 16 && Divides(Plus(p, Zeros(|q|) + (ByteBits(x) + Zeros(8))), q, Xor(c, High(x)))
  {
    hide WordBits, ByteBits, Xor, High, Times;
    XorAdds(c, x);
    var b := ByteBits(x) + Zeros(8);
    var l, r := Plus(p, Zeros(|q|) + b), Plus(Times(q), Zeros(|q|) + WordBits(Xor(c, High(x))));
    forall j | 0 <= j < |l| ensures l[j] == r[j] {
    }
    assert l == r;
  }

  lemma MoveUp(p: Poly, z: Poly, b: Poly)
    requires |p| == |z| + 16 && |b| == 8
    ensures Plus(p, z + (b + Zeros(8))) + Zeros(8) == Plus(p + Zeros(8), z + (b + Zeros(16)))
  {
  }

  // ---- The checksum ----

  lemma DividendNext(data: seq<Byte>, x: Byte)
    ensures Dividend(data + [x]) == Plus(Dividend(data) + Zeros(8), Zeros(8 * |data|) + (ByteBits(x) + Zeros(16)))
  {
    hide ByteBits;
    var d := data + [x];
    assert d[..|d| - 1] == data;
    hide Message;
    var l, r := Dividend(d), Plus(Dividend(data) + Zeros(8), Zeros(8 * |data|) + (ByteBits(x) + Zeros(16)));
    forall j | 0 <= j < |l| ensures l[j] == r[j] {
    }
    assert l == r;
  }

  /** The checksum is a remainder of the division. */
  lemma {:induction false} CrcDivides(data: seq<Byte>) returns (q: Poly)
    ensures |q| == 8 * |data| && Divides(Dividend(data), q, Crc(data))
  {
    hide Divides, Absorb, Dividend;
    if data == [] {
      q := [];
      EmptyDividend();
      NothingDivides(0xffff);
    } else {
      var n := |data| - 1;
      var q0 := CrcDivides(data[..n]);
      q := ByteDivides(Dividend(data[..n]), q0, Crc(data[..n]), data[n]);
      DividendNext(data[..n], data[n]);
      assert data[..n] + [data[n]] == data;
    }
  }

  lemma EmptyDividend()
    ensures Dividend([]) == WordBits(0xffff)
  {
    hide Has, Mask;
    forall i: nat | i < 16 ensures Has(0xffff, Mask(i)) { AllBits(i); }
    var l, r := Dividend([]), WordBits(0xffff);
    assert |l| == 16 && forall i :: 0 <= i < 16 ==> l[i] == r[i];
  }

  lemma AllBits(i: nat)
    requires i < 16
    ensures Has(0xffff, Mask(i))
  {
    Masks();
  }

  // ---- Only one remainder ----

  /** A quotient can be read off the high powers of its multiple. */
  lemma {:induction false} QuotientIsUnique(p: Poly, q: Poly, k: nat)
    requires |p| == |q| && k <= |q| && Times(p)[..|p|] == Times(q)[..|q|]
    ensures p[..k] == q[..k]
  {
    hide Times;
    if k > 0 {
      QuotientIsUnique(p, q, k - 1);
      var j := k - 1;
      assert Times(p)[j] == Times(p)[..|p|][j] && Times(q)[j] == Times(q)[..|q|][j];
      TimesAt(p, j);
      TimesAt(q, j);
      forall i: int | i < j ensures At(p, i) == At(q, i) {
        if i >= 0 { assert p[i] == p[..j][i] && q[i] == q[..j][i]; }
      }
      assert p[j] == q[j];
      assert p[..k] == p[..j] + [p[j]] && q[..k] == q[..j] + [q[j]];
    }
  }

  lemma NoBits(c: Word)
    requires !Has(c, 0x8000) && !Has(c, 0x4000) && !Has(c, 0x2000) && !Has(c, 0x1000) && !Has(c, 0x800)
    requires !Has(c, 0x400) && !Has(c, 0x200) && !Has(c, 0x100) && !Has(c, 0x80) && !Has(c, 0x40)
    requires !Has(c, 0x20) && !Has(c, 0x10) && !Has(c, 0x8) && !Has(c, 0x4) && !Has(c, 0x2) && !Has(c, 0x1)
    ensures c == 0
  {
  }

  lemma WordOfBits(a: Word, b: Word)
    requires WordBits(a) == WordBits(b)
    ensures a == b
  {
    hide Xor, Has, Mask;
    Masks();
    XorPlus(a, b);
    forall i: nat | i < 16 ensures !Has(Xor(a, b), Mask(i)) { assert !WordBits(Xor(a, b))[i]; }
    NoBits(Xor(a, b));
    XorZero(a, b);
  }

  lemma RemainderIsUnique(p: Poly, q: Poly, c: Word, q': Poly, c': Word)
    requires Divides(p, q, c) && Divides(p, q', c')
    ensures q == q' && c == c'
  {
    hide Times, WordBits;
    var n := |q|;
    assert Times(q)[..n] == p[..n] && Times(q')[..n] == p[..n];
    QuotientIsUnique(q, q', n);
    assert q[..n] == q && q'[..n] == q';
    forall i | 0 <= i < 16 ensures WordBits(c)[i] == WordBits(c')[i] {
      assert p[n + i] == (Times(q)[n + i] != WordBits(c)[i]) && p[n + i] == (Times(q)[n + i] != WordBits(c')[i]);
    }
    WordOfBits(c, c');
  }

  /** The checksum of the file server is the remainder of the division, and nothing else is. */
  lemma CrcIff(data: seq<Byte>, c: Word)
    ensures c == Crc(data) <==> exists q :: Divides(Dividend(data), q, c)
  {
    hide Divides, Dividend, Crc;
    var q := CrcDivides(data);
    if q' :| Divides(Dividend(data), q', c) { RemainderIsUnique(Dividend(data), q, Crc(data), q', c); }
  }

  // ---- The code ----

  method Shift(c: Word) returns (crc: Word)
    ensures crc == Bits(c, BYTE_BITS)
  {
    hide Bit;
    crc := c;
    for n := 0 to BYTE_BITS
      invariant crc == Bits(c, n)
    {
      crc := Bit(crc);
    }
  }

  /** `crc16_ccitt` */
  method Crc16(data: seq<Byte>) returns (crc: Word)
    ensures crc == Crc(data)
    ensures exists q :: Divides(Dividend(data), q, crc)
  {
    hide Bits, Xor, High, Divides, Dividend;
    crc := 0xffff;
    for i := 0 to |data|
      invariant crc == Crc(data[..i])
    {
      crc := Shift(Xor(crc, High(data[i])));
      assert data[..i + 1][..i] == data[..i];
    }
    assert data[..|data|] == data;
    ghost var q := CrcDivides(data);
  }

  // ---- What follows ----

  lemma {:induction false} ZeroStays(n: nat)
    ensures Bits(0, n) == 0
  {
    if n > 0 { ZeroStays(n - 1); }
  }

  lemma HalvesCancel(c: Word)
    ensures Xor(Xor(c, High((c >> 8) as Byte)), Low((c & 0xff) as Byte)) == 0
  {
  }

  /** A message followed by its own checksum, high byte first, is a multiple of the divisor. */
  lemma OwnChecksum(data: seq<Byte>)
    ensures var c := Crc(data); Crc(data + [(c >> 8) as Byte, (c & 0xff) as Byte]) == 0
  {
    hide Absorb, Bits, Xor, High, Low;
    var c := Crc(data);
    var x, y := (c >> 8) as Byte, (c & 0xff) as Byte;
    CrcOfTwo(data, x, y);
    AbsorbTwo(c, x, y);
    HalvesCancel(c);
    ZeroStays(16);
  }

  lemma AbsorbEight(c: Word, x: Byte)
    ensures Absorb(c, x) == Bit(Bit(Bit(Bit(Bit(Bit(Bit(Bit(Xor(c, High(x))))))))))
  {
    hide Bit, Xor, High;
    var d := Xor(c, High(x));
    assert Bits(d, 1) == Bit(d);
    assert Bits(d, 2) == Bit(Bit(d));
    assert Bits(d, 3) == Bit(Bit(Bit(d)));
    assert Bits(d, 4) == Bit(Bit(Bit(Bit(d))));
    assert Bits(d, 5) == Bit(Bits(d, 4)) && Bits(d, 6) == Bit(Bits(d, 5));
    assert Bits(d, 7) == Bit(Bits(d, 6)) && Bits(d, 8) == Bit(Bits(d, 7));
  }

  /** The check value of this checksum: the nine digits "123456789" give 0x29b1. */
  lemma CheckValue()
    ensures Crc([0x31, 0x32, 0x33, 0x34, 0x35, 0x36, 0x37, 0x38, 0x39]) == 0x29b1
  {
    hide Absorb;
    AbsorbEight(0xffff, 0x31);
    assert Absorb(0xffff, 0x31) == 0xc782;
    AbsorbEight(0xc782, 0x32);
    assert Absorb(0xc782, 0x32) == 0x3dba;
    AbsorbEight(0x3dba, 0x33);
    assert Absorb(0x3dba, 0x33) == 0x5bce;
    AbsorbEight(0x5bce, 0x34);
    assert Absorb(0x5bce, 0x34) == 0x5349;
    AbsorbEight(0x5349, 0x35);
    assert Absorb(0x5349, 0x35) == 0x4560;
    AbsorbEight(0x4560, 0x36);
    assert Absorb(0x4560, 0x36) == 0x2ef4;
    AbsorbEight(0x2ef4, 0x37);
    assert Absorb(0x2ef4, 0x37) == 0x7718;
    AbsorbEight(0x7718, 0x38);
    assert Absorb(0x7718, 0x38) == 0xa12b;
    AbsorbEight(0xa12b, 0x39);
    assert Absorb(0xa12b, 0x39) == 0x29b1;
    var s: seq<Byte> := [0x31, 0x32, 0x33, 0x34, 0x35, 0x36, 0x37, 0x38, 0x39];
    assert s[..1][..0] == s[..0] && Crc(s[..1]) == 0xc782;
    assert s[..2][..1] == s[..1] && Crc(s[..2]) == 0x3dba;
    assert s[..3][..2] == s[..2] && Crc(s[..3]) == 0x5bce;
    assert s[..4][..3] == s[..3] && Crc(s[..4]) == 0x5349;
    assert s[..5][..4] == s[..4] && Crc(s[..5]) == 0x4560;
    assert s[..6][..5] == s[..5] && Crc(s[..6]) == 0x2ef4;
    assert s[..7][..6] == s[..6] && Crc(s[..7]) == 0x7718;
    assert s[..8][..7] == s[..7] && Crc(s[..8]) == 0xa12b;
    assert s[..9][..8] == s[..8] && Crc(s[..9]) == 0x29b1;
    assert s[..9] == s;
  }
}
