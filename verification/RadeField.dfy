/** The text field: a CRC byte and eight 6-bit codes, and the 56 information bits they become. */
module RadeField {
  import opened Bytes
  import opened RadeCharset
  import opened RadeCode

  const TEXT_LENGTH := 8

  const NDATA := 56

  const CRC_BITS := 8

  const CODE_BITS := 6

  /** 1 << k in a byte. */
  function Mask(k: int): bv8 {
    if k == 0 then 1 else if k == 1 then 2 else if k == 2 then 4 else if k == 3 then 8
    else if k == 4 then 16 else if k == 5 then 32 else if k == 6 then 64 else 128
  }

  /** Each bit weighs twice the one before. */
  lemma MasksDouble(k: int)
    ensures Mask(0) == 1 && (0 <= k < 7 ==> Mask(k + 1) == Mask(k) << 1)
  {
  }

  function ByteBit(x: bv8, k: int): bit { if x & Mask(k) != 0 then 1 else 0 }

  /** The byte of the field that holds information bit b, and its place in there. */
  function Cell(b: nat): nat { if b < CRC_BITS then 0 else 1 + (b - CRC_BITS) / CODE_BITS }

  function Offset(b: nat): nat { if b < CRC_BITS then b else (b - CRC_BITS) % CODE_BITS }

  /** A field: a CRC byte, eight codes of six bits, a closing NUL. */
  predicate Field(raw: seq<bv8>) {
    |raw| == TEXT_LENGTH + 2 && raw[TEXT_LENGTH + 1] == 0 && forall j :: 1 <= j <= TEXT_LENGTH ==> raw[j] < 64
  }

  function InfoBits(raw: seq<bv8>): (r: seq<bit>)
    requires |raw| == TEXT_LENGTH + 2
  {
    seq(NDATA, b requires 0 <= b < NDATA => ByteBit(raw[Cell(b)], Offset(b)))
  }

  lemma SameBits(x: bv8, y: bv8)
    requires forall k :: 0 <= k < 8 ==> ByteBit(x, k) == ByteBit(y, k)
    ensures x == y
  {
    assert ByteBit(x, 0) == ByteBit(y, 0) && ByteBit(x, 1) == ByteBit(y, 1);
    assert ByteBit(x, 2) == ByteBit(y, 2) && ByteBit(x, 3) == ByteBit(y, 3);
    assert ByteBit(x, 4) == ByteBit(y, 4) && ByteBit(x, 5) == ByteBit(y, 5);
    assert ByteBit(x, 6) == ByteBit(y, 6) && ByteBit(x, 7) == ByteBit(y, 7);
  }

  lemma SixBits(x: bv8)
    requires x < 64
    ensures ByteBit(x, 6) == 0 && ByteBit(x, 7) == 0
  {
  }

  /** Different fields have different bits. */
  lemma BitsDetermineField(x: seq<bv8>, y: seq<bv8>)
    requires Field(x) && Field(y) && InfoBits(x) == InfoBits(y)
    ensures x == y
  {
    forall j | 0 <= j <= TEXT_LENGTH
      ensures x[j] == y[j]
    {
      if j > 0 {
        SixBits(x[j]);
        SixBits(y[j]);
      }
      forall k | 0 <= k < 8
        ensures ByteBit(x[j], k) == ByteBit(y[j], k)
      {
        var b := if j == 0 then k else CRC_BITS + CODE_BITS * (j - 1) + k;
        if j == 0 || k < CODE_BITS {
          assert Cell(b) == j && Offset(b) == k;
          assert InfoBits(x)[b] == InfoBits(y)[b];
        }
      }
      SameBits(x[j], y[j]);
    }
  }

  /** The first b bits are in place, and zeros beyond. */
  ghost predicate PackedTo(ibits: seq<bit>, tmp: seq<bv8>, b: nat) {
    && |tmp| == TEXT_LENGTH + 2 && |ibits| == NDATA
    && forall q :: 0 <= q < NDATA ==> ibits[q] == if q < b then InfoBits(tmp)[q] else 0
  }

  /** The second loop of PackInfo: six bits of each code. */
  method PackCodes(tmp: seq<bv8>, crc: seq<bit>) returns (ibits: seq<bit>)
    requires PackedTo(crc, tmp, CRC_BITS)
    ensures ibits == InfoBits(tmp)
  {
    ibits := crc;
    var b := CRC_BITS;
    while b < NDATA
      invariant CRC_BITS <= b <= NDATA && PackedTo(ibits, tmp, b)
    {
      var fromCrc := b - CRC_BITS;
      if tmp[1 + fromCrc / CODE_BITS] & Mask(fromCrc % CODE_BITS) != 0 {
        ibits := ibits[b := 1];
      }
      b := b + 1;
    }
  }

  method PackInfo(tmp: seq<bv8>) returns (ibits: seq<bit>)
    requires |tmp| == TEXT_LENGTH + 2
    ensures ibits == InfoBits(tmp)
  {
    ibits := seq(NDATA, _ => 0);
    var b := 0;
    while b < CRC_BITS
      invariant 0 <= b <= CRC_BITS && PackedTo(ibits, tmp, b)
    {
      if tmp[0] & Mask(b) != 0 {
        ibits := ibits[b := 1];
      }
      b := b + 1;
    }
    ibits := PackCodes(tmp, ibits);
  }

  // ---------------------------------------------------------------- bits back to bytes

  lemma OrSetsOne(x: bv8, k: int, j: int)
    requires 0 <= k < 8 && 0 <= j < 8
    ensures ByteBit(x | Mask(k), j) == if j == k then 1 else ByteBit(x, j)
    ensures k < 6 && x < 64 ==> x | Mask(k) < 64
  {
  }

  /** raw holds the first b of the bits and zeros beyond. */
  ghost predicate Holds(raw: seq<bv8>, bits: seq<bit>, b: nat) {
    && Field(raw) && b <= NDATA <= |bits|
    && forall q :: 0 <= q < NDATA ==> ByteBit(raw[Cell(q)], Offset(q)) == if q < b then bits[q] else 0
  }

  lemma CellsFit(b: nat)
    requires b < NDATA
    ensures Cell(b) <= TEXT_LENGTH && Offset(b) < 8
  {
  }

  lemma OnePlaceEach(b: nat, q: nat)
    requires b < NDATA && q < NDATA && Cell(b) == Cell(q) && Offset(b) == Offset(q)
    ensures b == q
  {
  }

  lemma OrInField(raw: seq<bv8>, b: nat)
    requires Field(raw) && b < NDATA
    ensures Field(raw[Cell(b) := raw[Cell(b)] | Mask(Offset(b))])
  {
    OrSetsOne(raw[Cell(b)], Offset(b), 0);
  }

  lemma OrAt(raw: seq<bv8>, b: nat, q: nat)
    requires |raw| == TEXT_LENGTH + 2 && b < NDATA && q < NDATA
    ensures var next := raw[Cell(b) := raw[Cell(b)] | Mask(Offset(b))];
            ByteBit(next[Cell(q)], Offset(q)) == if q == b then 1 else ByteBit(raw[Cell(q)], Offset(q))
  {
    CellsFit(b);
    CellsFit(q);
    if Cell(q) == Cell(b) {
      OrSetsOne(raw[Cell(b)], Offset(b), Offset(q));
      if Offset(q) == Offset(b) {
        OnePlaceEach(b, q);
      }
    }
  }

  lemma HoldsNext(raw: seq<bv8>, bits: seq<bit>, b: nat)
    requires Holds(raw, bits, b) && b < NDATA
    ensures Holds(if bits[b] == 1 then raw[Cell(b) := raw[Cell(b)] | Mask(Offset(b))] else raw, bits, b + 1)
  {
    if bits[b] == 1 {
      var next := raw[Cell(b) := raw[Cell(b)] | Mask(Offset(b))];
      OrInField(raw, b);
      forall q | 0 <= q < NDATA
        ensures ByteBit(next[Cell(q)], Offset(q)) == if q <= b then bits[q] else 0
      {
        OrAt(raw, b, q);
      }
    }
  }

  /** The byte whose low n bits start at a place among the bits. */
  function ByteOf(bits: seq<bit>, at: nat, n: nat): bv8
    requires at + n <= |bits|
  {
    if n == 0 then 0 else ByteOf(bits, at, n - 1) | (if bits[at + n - 1] == 1 then Mask(n - 1) else 0)
  }

  lemma OrMaybe(x: bv8, k: int, on: bool, j: int)
    requires 0 <= k < 8 && 0 <= j < 8
    ensures var y := x | (if on then Mask(k) else 0);
            ByteBit(y, j) == (if j == k && on then 1 else ByteBit(x, j)) && (k < 6 && x < 64 ==> y < 64)
  {
    if on {
      OrSetsOne(x, k, j);
    } else {
      assert x | 0 == x;
    }
  }

  lemma {:induction false} ByteOfBits(bits: seq<bit>, at: nat, n: nat, k: nat)
    requires at + n <= |bits| && n <= 8 && k < 8
    ensures ByteBit(ByteOf(bits, at, n), k) == if k < n then bits[at + k] else 0
    ensures n <= CODE_BITS ==> ByteOf(bits, at, n) < 64
  {
    if n > 0 {
      ByteOfBits(bits, at, n - 1, k);
      OrMaybe(ByteOf(bits, at, n - 1), n - 1, bits[at + n - 1] == 1, k);
    }
  }

  /** The field a word's information bits spell. */
  function FieldFrom(bits: seq<bit>): seq<bv8>
    requires |bits| >= NDATA
  {
    seq(TEXT_LENGTH + 2, j requires 0 <= j < TEXT_LENGTH + 2 =>
      if j == 0 then ByteOf(bits, 0, CRC_BITS)
      else if j <= TEXT_LENGTH then ByteOf(bits, CRC_BITS + CODE_BITS * (j - 1), CODE_BITS)
      else 0)
  }

  lemma FieldFromBits(bits: seq<bit>)
    requires |bits| >= NDATA
    ensures Field(FieldFrom(bits)) && InfoBits(FieldFrom(bits)) == bits[..NDATA]
  {
    var raw := FieldFrom(bits);
    forall j | 1 <= j <= TEXT_LENGTH
      ensures raw[j] < 64
    {
      ByteOfBits(bits, CRC_BITS + CODE_BITS * (j - 1), CODE_BITS, 0);
    }
    forall b | 0 <= b < NDATA
      ensures ByteBit(raw[Cell(b)], Offset(b)) == bits[b]
    {
      if b < CRC_BITS {
        ByteOfBits(bits, 0, CRC_BITS, b);
      } else {
        ByteOfBits(bits, CRC_BITS + CODE_BITS * (Cell(b) - 1), CODE_BITS, Offset(b));
      }
    }
  }

  lemma HoldsAll(raw: seq<bv8>, bits: seq<bit>)
    requires |bits| >= NDATA && Holds(raw, bits, NDATA)
    ensures raw == FieldFrom(bits)
  {
    FieldFromBits(bits);
    assert InfoBits(raw) == bits[..NDATA];
    BitsDetermineField(raw, FieldFrom(bits));
  }

  /** The second loop of Unpack: the six-bit codes behind the CRC. */
  method UnpackCodes(output: seq<bit>, crc: seq<bv8>) returns (raw: seq<bv8>)
    requires Holds(crc, output, CRC_BITS)
    ensures Holds(raw, output, NDATA)
  {
    raw := crc;
    var b := CRC_BITS;
    while b < NDATA
      invariant CRC_BITS <= b <= NDATA && Holds(raw, output, b)
    {
      HoldsNext(raw, output, b);
      var fromCrc := b - CRC_BITS;
      if output[b] == 1 {
        raw := raw[1 + fromCrc / CODE_BITS := raw[1 + fromCrc / CODE_BITS] | Mask(fromCrc % CODE_BITS)];
      }
      b := b + 1;
    }
  }

  method Unpack(output: seq<bit>) returns (raw: seq<bv8>)
    requires |output| >= NDATA
    ensures raw == FieldFrom(output)
  {
    raw := seq(TEXT_LENGTH + 2, _ => 0);
    var b := 0;
    while b < CRC_BITS
      invariant 0 <= b <= CRC_BITS && Holds(raw, output, b)
    {
      HoldsNext(raw, output, b);
      if output[b] == 1 {
        raw := raw[0 := raw[0] | Mask(b)];
      }
      b := b + 1;
    }
    raw := UnpackCodes(output, raw);
    HoldsAll(raw, output);
  }

  // ---------------------------------------------------------------- what the sender fills in

  /** The field of a string: at most eight of its characters, coded, with the CRC in front. */
  function FieldOf(text: seq<bv8>): (r: seq<bv8>)
    ensures Field(r)
  {
    var codes := Codes(Head(text, TEXT_LENGTH));
    CodesShort(Head(text, TEXT_LENGTH));
    [Crc(0, codes)] + codes + Repeat(TEXT_LENGTH + 1 - |codes|, 0)
  }

  /** strlen on a buffer that ends with a NUL. */
  method Strlen(s: seq<bv8>) returns (n: nat)
    requires |s| > 0 && s[|s| - 1] == 0
    ensures n < |s| && s[n] == 0 && NoNul(s, n)
  {
    n := 0;
    while s[n] != 0
      invariant 0 <= n < |s| && NoNul(s, n)
      decreases |s| - n
    {
      n := n + 1;
    }
  }

  lemma FieldFilled(tmp: seq<bv8>, codes: seq<bv8>)
    requires |codes| <= TEXT_LENGTH && Filled(tmp, Repeat(TEXT_LENGTH + 2, 0), 1, codes + [0])
    ensures tmp == [0] + codes + Repeat(TEXT_LENGTH + 1 - |codes|, 0)
  {
    var at := 1 + |codes|;
    assert tmp[..1] == Repeat(1, 0);
    assert tmp[1..at + 1] == codes + [0];
    assert tmp[at + 1..] == Repeat(TEXT_LENGTH + 1 - at, 0);
    assert tmp == tmp[..1] + tmp[1..at + 1] + tmp[at + 1..];
  }

  lemma StrlenIs(s: seq<bv8>, codes: seq<bv8>, pad: seq<bv8>, n: nat)
    requires s == codes + pad && n < |s| && s[n] == 0 && NoNul(s, n)
    requires forall k :: 0 <= k < |codes| ==> codes[k] != 0
    requires |pad| > 0 && pad[0] == 0
    ensures n == |codes| && s[..n] == codes
  {
    assert s[|codes|] == 0;
    assert forall k :: 0 <= k < |codes| ==> s[k] == codes[k];
  }

  lemma BehindFirst(tmp: seq<bv8>, codes: seq<bv8>, pad: seq<bv8>)
    requires tmp == [0] + codes + pad
    ensures tmp[1..] == codes + pad
  {
  }

  lemma CrcInFront(tmp: seq<bv8>, codes: seq<bv8>, pad: seq<bv8>, crc: bv8)
    requires tmp == [0] + codes + pad
    ensures tmp[0 := crc] == [crc] + codes + pad
  {
  }

  /** The codes in place, the CRC not yet. */
  method CodeText(text: seq<bv8>) returns (tmp: seq<bv8>)
    ensures var codes := Codes(Head(text, TEXT_LENGTH));
            |codes| <= TEXT_LENGTH && tmp == [0] + codes + Repeat(TEXT_LENGTH + 1 - |codes|, 0)
  {
    var buffer := new bv8[TEXT_LENGTH + 2](_ => 0);
    CodesShort(Head(text, TEXT_LENGTH));
    var maxChars := if |text| < TEXT_LENGTH then |text| else TEXT_LENGTH;
    assert buffer[..] == Repeat(TEXT_LENGTH + 2, 0);
    CallsignToOta(text, buffer, 1, maxChars);
    tmp := buffer[..];
    FieldFilled(tmp, Codes(Head(text, TEXT_LENGTH)));
  }

  /** The codes first, then their CRC in front. */
  method BuildField(text: seq<bv8>) returns (raw: seq<bv8>)
    ensures raw == FieldOf(text)
  {
    var tmp := CodeText(text);
    ghost var codes := Codes(Head(text, TEXT_LENGTH));
    ghost var pad := Repeat(TEXT_LENGTH + 1 - |codes|, 0);
    CodesShort(Head(text, TEXT_LENGTH));
    BehindFirst(tmp, codes, pad);
    var txtLen := Strlen(tmp[1..]);
    StrlenIs(tmp[1..], codes, pad, txtLen);
    if txtLen > TEXT_LENGTH {
      txtLen := TEXT_LENGTH;
    }
    var crc := Crc8(tmp[1..], txtLen);
    CrcInFront(tmp, codes, pad, crc);
    raw := tmp[0 := crc];
  }

  // "K1ABC"
  const EXAMPLE_TEXT: seq<bv8> := [75, 49, 65, 66, 67]

  /** One field as it goes out: the CRC, the codes, zeros. */
  lemma FieldExample()
    ensures FieldOf(EXAMPLE_TEXT)[1..] == [30, 11, 20, 21, 22, 0, 0, 0, 0]
  {
  }
}
