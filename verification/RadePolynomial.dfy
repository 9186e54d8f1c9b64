/** The CRC-8 of the RADE text as what it is: the remainder of a division of polynomials over GF(2). */
module RadePolynomial {
  import opened Bytes
  import opened RadeCharset
  import opened RadeField

  /** Coefficients, those of the highest powers first: x^8 + x^4 + x^3 + x^2 + 1. */
  const POLYNOMIAL := [true, false, false, false, true, true, true, false, true]

  const DEGREE := 8

  function Zeros(n: nat): (r: seq<bool>)
    ensures |r| == n
  {
    Repeat(n, false)
  }

  function Plus(p: seq<bool>, q: seq<bool>): (r: seq<bool>)
    requires |p| == |q|
    ensures |r| == |p|
  {
    seq(|p|, i requires 0 <= i < |p| => p[i] != q[i])
  }

  /** The polynomial or nothing. */
  function Multiple(bit: bool): (r: seq<bool>)
    ensures |r| == DEGREE + 1 && r[0] == bit
  {
    if bit then POLYNOMIAL else Zeros(DEGREE + 1)
  }

  /** The product with the polynomial. */
  function Times(q: seq<bool>): (p: seq<bool>)
    ensures |p| == |q| + DEGREE
  {
    if q == [] then Zeros(DEGREE)
    else
      var n := |q| - 1;
      var shifted := Times(q[..n]) + [false];
      shifted[..n] + Plus(shifted[n..], Multiple(q[n]))
  }

  /** Bit number i of a byte, the high one first. */
  predicate Bit(b: bv8, i: nat) { ByteBit(b, 7 - i) == 1 }

  /** A byte's bits, and those of a string. */
  function Bits(b: bv8): (r: seq<bool>)
    ensures |r| == DEGREE
  {
    seq(DEGREE, i requires 0 <= i < DEGREE => Bit(b, i))
  }

  function AllBits(data: seq<bv8>): seq<bool> {
    if data == [] then [] else Bits(data[0]) + AllBits(data[1..])
  }

  // ---------------------------------------------------------------- bytes and their bits

  lemma BitOfLeft(b: bv8, i: nat)
    requires i < DEGREE
    ensures Bit(b << 1, i) == (i + 1 < DEGREE && Bit(b, i + 1))
  {
  }

  /** A mask picks the same bit of a sum as of its terms. */
  lemma MaskOfXor(a: bv8, b: bv8, m: bv8)
    requires m & (m - 1) == 0
    ensures ((a ^ b) & m != 0) == ((a & m != 0) != (b & m != 0))
  {
  }

  lemma BitOfXor(a: bv8, b: bv8, i: nat)
    requires i < DEGREE
    ensures Bit(a ^ b, i) == (Bit(a, i) != Bit(b, i))
  {
    MaskOfXor(a, b, Mask(7 - i));
  }

  lemma BitsInjective(a: bv8, b: bv8)
    requires Bits(a) == Bits(b)
    ensures a == b
  {
    forall k | 0 <= k < 8 ensures ByteBit(a, k) == ByteBit(b, k) {
      assert Bits(a)[7 - k] == Bits(b)[7 - k];
    }
    SameBits(a, b);
  }

  lemma BitsOfXor(a: bv8, b: bv8)
    ensures Bits(a ^ b) == Plus(Bits(a), Bits(b))
  {
    forall i | 0 <= i < DEGREE ensures Bits(a ^ b)[i] == Plus(Bits(a), Bits(b))[i] {
      BitOfXor(a, b, i);
    }
  }

  lemma BitsOfLeft(b: bv8)
    ensures Bits(b << 1) == Bits(b)[1..] + [false]
  {
    forall i | 0 <= i < DEGREE ensures Bits(b << 1)[i] == (Bits(b)[1..] + [false])[i] {
      BitOfLeft(b, i);
    }
  }

  lemma GeneratorBits()
    ensures Bits(0x1D) == POLYNOMIAL[1..] && Bits(0) == Zeros(DEGREE)
  {
    assert !Bit(0x1D, 0) && !Bit(0x1D, 1) && !Bit(0x1D, 2) && Bit(0x1D, 3);
    assert Bit(0x1D, 4) && Bit(0x1D, 5) && !Bit(0x1D, 6) && Bit(0x1D, 7);
    assert !Bit(0, 0) && !Bit(0, 1) && !Bit(0, 2) && !Bit(0, 3) && !Bit(0, 4) && !Bit(0, 5) && !Bit(0, 6) && !Bit(0, 7);
  }

  // ---------------------------------------------------------------- one bit at a time

  /** The register after one more bit. */
  function Feed(w: seq<bool>, bit: bool): (r: seq<bool>)
    requires |w| == DEGREE
    ensures |r| == DEGREE
  {
    Plus(w[1..] + [false], Multiple(w[0] != bit)[1..])
  }

  function Serial(w: seq<bool>, bits: seq<bool>): (r: seq<bool>)
    requires |w| == DEGREE
    ensures |r| == DEGREE
    decreases |bits|
  {
    if bits == [] then w else Serial(Feed(w, bits[0]), bits[1..])
  }

  lemma {:induction false} SerialAppend(w: seq<bool>, bits: seq<bool>, more: seq<bool>)
    requires |w| == DEGREE
    ensures Serial(w, bits + more) == Serial(Serial(w, bits), more)
    decreases |bits|
  {
    if bits == [] {
      Unit(more);
    } else {
      assert (bits + more)[1..] == bits[1..] + more;
      SerialAppend(Feed(w, bits[0]), bits[1..], more);
    }
  }

  lemma SerialNext(w: seq<bool>, bits: seq<bool>, bit: bool)
    requires |w| == DEGREE
    ensures Serial(w, bits + [bit]) == Feed(Serial(w, bits), bit)
  {
    SerialAppend(w, bits, [bit]);
    assert [bit][1..] == [];
  }

  lemma PlusZeros(p: seq<bool>)
    ensures Plus(p, Zeros(|p|)) == p && Plus(Zeros(|p|), p) == p
  {
  }

  /** A shift is a bit fed in at the end of the register that is nothing. */
  lemma BitsOfShift(b: bv8)
    ensures Bits(Shift(b)) == Feed(Bits(b), false)
  {
    BitsOfLeft(b);
    if b & 0x80 != 0 {
      BitsOfXor(b << 1, 0x1D);
      GeneratorBits();
    } else {
      assert Zeros(DEGREE + 1)[1..] == Zeros(DEGREE);
      PlusZeros(Bits(b)[1..] + [false]);
    }
  }

  /** And a bit fed in at the end of the register is one added to its top before a shift. */
  lemma FeedIsShift(w: seq<bool>, d: seq<bool>)
    requires |w| == |d| == DEGREE
    ensures Plus(Feed(w, d[0]), d[1..] + [false]) == Feed(Plus(w, d), false)
  {
    var m := Multiple(w[0] != d[0])[1..];
    assert Plus(w, d)[0] == (w[0] != d[0]);
    forall i | 0 <= i < DEGREE
      ensures Plus(Plus(w[1..] + [false], m), d[1..] + [false])[i] == Plus(Plus(w, d)[1..] + [false], m)[i]
    {
    }
  }

  lemma RestNext(d: seq<bool>, n: nat)
    requires 0 < n <= |d|
    ensures (d[n - 1..] + Zeros(n - 1))[1..] + [false] == d[n..] + Zeros(n)
  {
  }

  lemma {:induction false} SerialShifts(r: bv8, d: seq<bool>, b: bv8, n: nat)
    requires |d| == DEGREE && n <= DEGREE && Bits(b) == Plus(Bits(r), d)
    ensures Plus(Serial(Bits(r), d[..n]), d[n..] + Zeros(n)) == Bits(Shifts(b, n))
  {
    if n == 0 {
      Unit(d);
    } else {
      var w, rest := Serial(Bits(r), d[..n - 1]), d[n - 1..] + Zeros(n - 1);
      SerialShifts(r, d, b, n - 1);
      PrefixNext(d, n - 1);
      SerialNext(Bits(r), d[..n - 1], d[n - 1]);
      assert rest[0] == d[n - 1];
      FeedIsShift(w, rest);
      RestNext(d, n);
      BitsOfShift(Shifts(b, n - 1));
    }
  }

  lemma ByteAtOnce(r: bv8, d: bv8)
    ensures Serial(Bits(r), Bits(d)) == Bits(Shifts(r ^ d, 8))
  {
    BitsOfXor(r, d);
    SerialShifts(r, Bits(d), r ^ d, 8);
    assert Bits(d)[..8] == Bits(d) && Bits(d)[8..] + Zeros(8) == Zeros(8);
    PlusZeros(Serial(Bits(r), Bits(d)));
  }

  /** A byte at a time and a bit at a time come to the same. */
  lemma {:induction false} SerialIsCrc(r: bv8, data: seq<bv8>)
    requires 0 !in data
    ensures Serial(Bits(r), AllBits(data)) == Bits(Crc(r, data))
    decreases |data|
  {
    if data != [] {
      assert data[0] in data;
      SerialAppend(Bits(r), Bits(data[0]), AllBits(data[1..]));
      ByteAtOnce(r, data[0]);
      SerialIsCrc(Shifts(r ^ data[0], 8), data[1..]);
    }
  }

  // ---------------------------------------------------------------- multiples

  /** The first and the last coefficients of a product. */
  function Head(q: seq<bool>): (r: seq<bool>)
    ensures |r| == |q|
  {
    Times(q)[..|q|]
  }

  function Tail(q: seq<bool>): (r: seq<bool>)
    ensures |r| == DEGREE
  {
    Times(q)[|q|..]
  }

  lemma ProductNext(q: seq<bool>, bit: bool)
    ensures var w := Tail(q); Head(q + [bit]) == Head(q) + [w[0] != bit] && Tail(q + [bit]) == Feed(w, w[0] != bit)
  {
    var all, shifted := q + [bit], Times(q) + [false];
    assert all[..|q|] == q && all[|q|] == bit;
    var w, sum := Tail(q), Plus(shifted[|q|..], Multiple(bit));
    assert shifted[|q|..] == w + [false] && shifted[..|q|] == Head(q);
    assert Times(all) == Head(q) + sum && |sum| == DEGREE + 1;
    assert Head(all) == Head(q) + sum[..1] && Tail(all) == sum[1..];
    assert sum[..1] == [w[0] != bit];
    assert sum[1..] == Plus(w[1..] + [false], Multiple(bit)[1..]);
  }

  /** The tail is what the first coefficients leave in the register. */
  lemma {:induction false} TailIsRest(q: seq<bool>)
    ensures Tail(q) == Serial(Zeros(DEGREE), Head(q))
  {
    if q != [] {
      var init, bit := q[..|q| - 1], q[|q| - 1];
      assert q == init + [bit];
      TailIsRest(init);
      ProductNext(init, bit);
      SerialNext(Zeros(DEGREE), Head(init), Tail(init)[0] != bit);
    }
  }

  /** The multiple with these first coefficients. */
  function Quotient(bits: seq<bool>): (q: seq<bool>)
    ensures |q| == |bits|
  {
    if bits == [] then []
    else
      var q := Quotient(bits[..|bits| - 1]);
      q + [Tail(q)[0] != bits[|bits| - 1]]
  }

  lemma {:induction false} QuotientSpells(bits: seq<bool>)
    ensures Head(Quotient(bits)) == bits
  {
    if bits != [] {
      var init, bit := bits[..|bits| - 1], bits[|bits| - 1];
      QuotientSpells(init);
      ProductNext(Quotient(init), Tail(Quotient(init))[0] != bit);
      assert bits == init + [bit];
    }
  }

  lemma CrcMakesMultiple(codes: seq<bv8>)
    requires 0 !in codes
    ensures Times(Quotient(AllBits(codes))) == AllBits(codes) + Bits(Crc(0, codes))
  {
    var q := Quotient(AllBits(codes));
    SerialIsCrc(0, codes);
    QuotientSpells(AllBits(codes));
    TailIsRest(q);
    GeneratorBits();
    assert Times(q) == Head(q) + Tail(q);
  }

  lemma MultipleHasCrc(codes: seq<bv8>, crc: bv8, q: seq<bool>)
    requires 0 !in codes && Times(q) == AllBits(codes) + Bits(crc)
    ensures crc == Crc(0, codes)
  {
    SerialIsCrc(0, codes);
    TailIsRest(q);
    GeneratorBits();
    assert Head(q) == AllBits(codes) && Tail(q) == Bits(crc);
    BitsInjective(Crc(0, codes), crc);
  }

  /** The CRC of a string of codes is the one byte that, written behind them, makes their bits the
      coefficients of a multiple of the polynomial. */
  lemma CrcDivides(codes: seq<bv8>, crc: bv8)
    requires 0 !in codes
    ensures crc == Crc(0, codes) <==> exists q :: Times(q) == AllBits(codes) + Bits(crc)
  {
    CrcMakesMultiple(codes);
    if q :| Times(q) == AllBits(codes) + Bits(crc) {
      MultipleHasCrc(codes, crc, q);
    }
  }
}
