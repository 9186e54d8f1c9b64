/** The text sent at the end of an over, from string to symbols and back. */
module RadeText {
  import opened Options
  import opened RadeCharset
  import opened RadeCode
  import opened RadeDecoder
  import opened RadeDecoderLaws
  import opened RadeDemod
  import opened RadeField
  import opened RadeGraph
  import opened RadeInterleaver
  import opened RadePhi

  const CODELENGTH := 112

  // ---------------------------------------------------------------- transmit

  /** The codeword of a field. */
  function Word(code: Code, raw: seq<bv8>): (w: seq<bit>)
    requires Sized(code) && code.n == NDATA && |raw| == TEXT_LENGTH + 2
    ensures |w| == CODELENGTH
  {
    InfoBits(raw) + ParityBits(code, InfoBits(raw))
  }

  /** Symbol i of the channel. */
  function PointAt(syms: seq<real>, i: nat): Point
    requires 2 * i + 1 < |syms|
  {
    Point(syms[2 * i], syms[2 * i + 1])
  }

  function Points(syms: seq<real>): seq<Point> {
    seq(|syms| / 2, i requires 0 <= i < |syms| / 2 => PointAt(syms, i))
  }

  /** The channel values carry the word: interleaved, mapped, and followed by the known padding. */
  predicate Carries(syms: seq<real>, word: seq<bit>)
    requires |word| == CODELENGTH
  {
    && CODELENGTH <= |syms|
    && (forall i :: 0 <= i < GP_N ==> PointAt(syms, Slot(GP_B, GP_N, i)) == Mapped(word[2 * i], word[2 * i + 1]))
    && (forall i :: CODELENGTH <= i < |syms| ==> syms[i] == if i % 2 == 1 then 0.0 else 1.0)
  }

  /** Pair i of the word is on symbol 37 * i mod 56, as one of four points a quarter turn apart. */
  lemma PairsOnAir(syms: seq<real>, word: seq<bit>, i: nat)
    requires |word| == CODELENGTH && Carries(syms, word) && i < 56
    ensures var j := 37 * i % 56;
            && 2 * j + 1 < |syms|
            && (word[2 * i] == 0 && word[2 * i + 1] == 0 ==> syms[2 * j] == 1.0 && syms[2 * j + 1] == 0.0)
            && (word[2 * i] == 0 && word[2 * i + 1] == 1 ==> syms[2 * j] == 0.0 && syms[2 * j + 1] == 1.0)
            && (word[2 * i] == 1 && word[2 * i + 1] == 0 ==> syms[2 * j] == 0.0 && syms[2 * j + 1] == -1.0)
            && (word[2 * i] == 1 && word[2 * i + 1] == 1 ==> syms[2 * j] == -1.0 && syms[2 * j + 1] == 0.0)
  {
    assert PointAt(syms, Slot(GP_B, GP_N, i)) == Mapped(word[2 * i], word[2 * i + 1]);
  }

  method MapSymbols(bits: seq<bit>, syms: array<real>)
    requires |bits| == CODELENGTH <= syms.Length
    modifies syms
    ensures forall i :: 0 <= i < GP_N ==> PointAt(syms[..], i) == Mapped(bits[2 * i], bits[2 * i + 1])
    ensures forall i :: CODELENGTH <= i < syms.Length ==> syms[i] == if i % 2 == 1 then 0.0 else 1.0
  {
    var i := 0;
    while i < GP_N
      invariant 0 <= i <= GP_N
      invariant forall q :: 0 <= q < i ==> Point(syms[2 * q], syms[2 * q + 1]) == Mapped(bits[2 * q], bits[2 * q + 1])
    {
      var p := Mapped(bits[2 * i], bits[2 * i + 1]);
      syms[2 * i], syms[2 * i + 1] := p.re, p.im;
      i := i + 1;
    }
    i := CODELENGTH;
    while i < syms.Length
      invariant CODELENGTH <= i <= syms.Length
      invariant forall q :: 0 <= q < GP_N ==>
                  Point(syms[2 * q], syms[2 * q + 1]) == Mapped(bits[2 * q], bits[2 * q + 1])
      invariant forall q :: CODELENGTH <= q < i ==> syms[q] == if q % 2 == 1 then 0.0 else 1.0
    {
      syms[i] := if i % 2 == 1 then 0.0 else 1.0;
      i := i + 1;
    }
  }

  lemma MappedCarries(syms: seq<real>, bits: seq<bit>, word: seq<bit>)
    requires |word| == |bits| == CODELENGTH <= |syms| && Interleaved(GP_B, GP_N, bits, word)
    requires forall i :: 0 <= i < GP_N ==> PointAt(syms, i) == Mapped(bits[2 * i], bits[2 * i + 1])
    requires forall i :: CODELENGTH <= i < |syms| ==> syms[i] == if i % 2 == 1 then 0.0 else 1.0
    ensures Carries(syms, word)
  {
  }

  method GenerateTxString(code: Code, text: seq<bv8>, syms: array<real>)
    requires Sized(code) && code.n == NDATA && CODELENGTH <= syms.Length
    modifies syms
    ensures Carries(syms[..], Word(code, FieldOf(text)))
  {
    var tmp := BuildField(text);
    var ibits := PackInfo(tmp);
    var pbits := new bit[NDATA];
    LdpcEncode(code, ibits, pbits);
    var tmpbits := ibits + pbits[..];
    var txText := new bit[CODELENGTH];
    GoldenPrimeCoprime();
    InterleaveBits(GP_B, GP_N, tmpbits, txText);
    MapSymbols(txText[..], syms);
    MappedCarries(syms[..], txText[..], tmpbits);
  }

  // ---------------------------------------------------------------- receive

  function Energy(points: seq<Point>): real {
    if points == [] then 0.0
    else Energy(points[..|points| - 1]) + Squares(points[|points| - 1].re, points[|points| - 1].im)
  }

  /** sqrtf over the reals. */
  ghost predicate IsRoot(sqrt: real -> real) {
    forall x :: x >= 0.0 ==> sqrt(x) >= 0.0 && sqrt(x) * sqrt(x) == x
  }

  /** The mean square of all symbols, used or not. */
  function MeanSquare(syms: seq<real>): real
    requires CODELENGTH <= |syms|
  {
    (Energy(Deinterleaved(GP_B, GP_N, Points(syms))) + Energy(Points(syms)[GP_N..])) / ((|syms| / 2) as real)
  }

  /** What is handed to the listener for a decoded word, if anything. */
  function Verdict(even: nat, raw: seq<bv8>): Option<seq<bv8>>
    requires |raw| == TEXT_LENGTH + 2
  {
    if ((NDATA - even) as real) / (NDATA as real) >= 0.2 then None
    else if raw[0] == Crc(0, raw[1..TEXT_LENGTH + 1]) then Some(Chars(raw[1..TEXT_LENGTH + 1]))
    else None
  }

  function DecodeLlr(phi: real -> real, code: Code, llr: seq<real>): (r: Outcome)
    requires Sized(code) && |llr| == 2 * code.n
    ensures |r.bits| == 2 * code.n
  {
    Decode(phi, CheckNodes(code), VariableNodes(phi, code, llr), 0)
  }

  method MeasureEnergy(points: seq<Point>, syms: seq<real>) returns (sum: real)
    requires |points| == GP_N && CODELENGTH <= |syms|
    ensures sum == Energy(points) + Energy(Points(syms)[GP_N..])
  {
    sum := 0.0;
    var i := 0;
    while i < GP_N
      invariant 0 <= i <= GP_N && sum == Energy(points[..i])
    {
      assert points[..i + 1][..i] == points[..i];
      sum := sum + (points[i].re * points[i].re + points[i].im * points[i].im);
      i := i + 1;
    }
    assert points[..i] == points;
    ghost var unused := Points(syms)[GP_N..];
    var totalSyms := |syms| / 2;
    while i < totalSyms
      invariant GP_N <= i <= totalSyms && sum == Energy(points) + Energy(unused[..i - GP_N])
    {
      var sr, si := syms[2 * i], syms[2 * i + 1];
      assert unused[i - GP_N] == Point(sr, si);
      assert unused[..i - GP_N + 1][..i - GP_N] == unused[..i - GP_N];
      sum := sum + (sr * sr + si * si);
      i := i + 1;
    }
    assert unused[..i - GP_N] == unused;
  }

  method MeasureMean(points: seq<Point>, syms: seq<real>) returns (mean: real)
    requires CODELENGTH <= |syms| && points == Deinterleaved(GP_B, GP_N, Points(syms))
    ensures mean == MeanSquare(syms)
  {
    var sum := MeasureEnergy(points, syms);
    mean := sum / ((|syms| / 2) as real);
  }

  method LdpcDecode(phi: real -> real, code: Code, input: seq<real>) returns (out: seq<bit>, parityCheckCount: nat)
    requires Sized(code) && Packed(code) && Transposed(code) && |input| == 2 * code.n
    ensures var r := DecodeLlr(phi, code, input);
            out == r.bits && parityCheckCount == r.even && |out| == 2 * code.n
  {
    var c := new CNode[code.n](_ => CNode([]));
    var v := new VNode[2 * code.n](_ => VNode(0.0, []));
    var decoded := new bit[2 * code.n](_ => 0);
    InitNodes(phi, code, input, c, v);
    GraphIsLinked(phi, code, input);
    LinkedInRange(c[..], v[..]);
    var iter;
    iter, parityCheckCount := SumProduct(phi, c, v, decoded);
    out := decoded[..];
  }

  /** The ratios a receiver works on. */
  function Demodulated(sqrt: real -> real, syms: seq<real>): (r: seq<real>)
    requires CODELENGTH <= |syms| && sqrt(MeanSquare(syms)) != 0.0
    ensures |r| == CODELENGTH
  {
    var rms := sqrt(MeanSquare(syms));
    Ratios(Deinterleaved(GP_B, GP_N, Points(syms)), seq(GP_N, _ => rms), ES_NO, rms)
  }

  /** The ratios at one amplitude for all symbols. */
  method AtLevel(points: seq<Point>, rms: real) returns (ratios: seq<real>)
    requires |points| == GP_N && rms != 0.0
    ensures ratios == Ratios(points, seq(GP_N, _ => rms), ES_NO, rms)
  {
    var llr := new real[CODELENGTH];
    var amps := seq(GP_N, _ => rms);
    SymbolsToLlrs(llr, points, amps, ES_NO, rms);
    ratios := llr[..];
  }

  method Demodulate(sqrt: real -> real, syms: seq<real>) returns (ratios: seq<real>)
    requires CODELENGTH <= |syms| && sqrt(MeanSquare(syms)) != 0.0
    ensures ratios == Demodulated(sqrt, syms)
  {
    var points := new Point[GP_N](_ => Point(0.0, 0.0));
    Deinterleave(GP_B, GP_N, Points(syms), points);
    var mean := MeasureMean(points[..], syms);
    ratios := AtLevel(points[..], sqrt(mean));
  }

  /** What a receiver passes on. */
  function Heard(phi: real -> real, code: Code, sqrt: real -> real, syms: seq<real>): Option<seq<bv8>>
    requires Sized(code) && code.n == NDATA
    requires CODELENGTH <= |syms| && sqrt(MeanSquare(syms)) != 0.0
  {
    var r := DecodeLlr(phi, code, Demodulated(sqrt, syms));
    Verdict(r.even, FieldFrom(r.bits))
  }

  method ReadOut(output: seq<bit>, parityCheckCount: nat) returns (heard: Option<seq<bv8>>)
    requires |output| == CODELENGTH
    ensures heard == Verdict(parityCheckCount, FieldFrom(output))
  {
    var rawStr := Unpack(output);
    var ber := ((NDATA - parityCheckCount) as real) / (NDATA as real);
    if ber >= 0.2 {
      return None;
    }
    var text := OtaToCallsign(rawStr[1..], TEXT_LENGTH);
    var calcCrc := Crc8(rawStr[1..], TEXT_LENGTH);
    assert rawStr[1..][..TEXT_LENGTH] == rawStr[1..TEXT_LENGTH + 1];
    heard := if rawStr[0] == calcCrc then Some(text) else None;
  }

  /** rade_text_rx, up to the string it calls back with. */
  method TextRx(phi: real -> real, code: Code, sqrt: real -> real, syms: seq<real>) returns (heard: Option<seq<bv8>>)
    requires Sized(code) && Packed(code) && Transposed(code) && code.n == NDATA
    requires CODELENGTH <= |syms| && sqrt(MeanSquare(syms)) != 0.0
    ensures heard == Heard(phi, code, sqrt, syms)
  {
    var llr := Demodulate(sqrt, syms);
    var output, parityCheckCount := LdpcDecode(phi, code, llr);
    heard := ReadOut(output, parityCheckCount);
  }
}
