/** What is sent is what is heard: the whole codec, from string to string. */
module RadeLoopback {
  import opened Bytes
  import opened Options
  import opened RadeCharset
  import opened RadeCode
  import opened RadeDecoder
  import opened RadeDecoderLaws
  import opened RadeDemod
  import opened RadeField
  import opened RadeGraph
  import opened RadeInterleaver
  import opened RadePhi
  import opened RadeTables
  import opened RadeText

  /** What a listener should get for a text: the first eight characters that are sent, as decoded. */
  function HeardOf(text: seq<bv8>): seq<bv8> { Received(Head(text, TEXT_LENGTH)) }

  // ---------------------------------------------------------------- the field

  /** A field read without error passes its CRC and decodes to the text. */
  lemma VerdictOfField(text: seq<bv8>)
    ensures Verdict(NDATA, FieldOf(text)) == Some(HeardOf(text))
  {
    var head := Head(text, TEXT_LENGTH);
    var codes := Codes(head);
    CodesShort(head);
    var pad := Repeat(TEXT_LENGTH - |codes|, 0);
    assert FieldOf(text)[1..TEXT_LENGTH + 1] == codes + pad;
    PaddingIgnored(0, codes, pad);
    PaddingUnread(codes, pad);
    CharsOfCodes(head);
  }

  /** One wrong code in the field, the CRC byte and the other codes right, is never passed on. */
  lemma OneWrongCodeRejected(text: seq<bv8>, even: nat, k: nat, wrong: bv8)
    requires 1 <= k <= |Codes(Head(text, TEXT_LENGTH))|
    requires k < |FieldOf(text)| && wrong != 0 && wrong != FieldOf(text)[k]
    ensures Verdict(even, FieldOf(text)[k := wrong]) == None
  {
    var head := Head(text, TEXT_LENGTH);
    var codes := Codes(head);
    CodesShort(head);
    var pad := Repeat(TEXT_LENGTH - |codes|, 0);
    var changed := codes[k - 1 := wrong];
    assert FieldOf(text)[k := wrong][1..TEXT_LENGTH + 1] == changed + pad;
    PaddingIgnored(0, changed, pad);
    OneChangeDetected(0, codes, changed, k - 1);
  }

  // ---------------------------------------------------------------- from symbols to bits

  /** Every symbol that carries the word is, at scale rms, nearest to what was sent. */
  ghost predicate Clear(syms: seq<real>, word: seq<bit>, rms: real) {
    && |word| == CODELENGTH <= |syms| && rms != 0.0
    && forall i :: 0 <= i < GP_N ==>
         Near(Scaled(PointAt(syms, Slot(GP_B, GP_N, i)), rms), Index(word[2 * i], word[2 * i + 1]))
  }

  lemma ClearBit(p: Point, rms: real, b0: bit, b1: bit)
    requires rms != 0.0 && Near(Scaled(p, rms), Index(b0, b1))
    ensures var lk := Likelihoods(p, rms, ES_NO, rms);
            (Llr(lk, 0) < 0.0 <==> b0 == 1) && (Llr(lk, 1) < 0.0 <==> b1 == 1)
  {
    NearStandsOut(p, rms, Index(b0, b1));
    ExactIsNear(b0, b1);
    SignsSpellTheSymbol(Likelihoods(p, rms, ES_NO, rms), Index(b0, b1), 0);
    SignsSpellTheSymbol(Likelihoods(p, rms, ES_NO, rms), Index(b0, b1), 1);
  }

  /** The received points, back in order, are each near the pair of bits it carries. */
  predicate NearWord(points: seq<Point>, word: seq<bit>, rms: real) {
    && |word| == 2 * |points| && rms != 0.0
    && forall i :: 0 <= i < |points| ==> Near(Scaled(points[i], rms), Index(word[2 * i], word[2 * i + 1]))
  }

  lemma NearPair(points: seq<Point>, amps: seq<real>, rms: real, word: seq<bit>, i: nat)
    requires NearWord(points, word, rms) && i < |points| == |amps| && amps[i] == rms
    ensures var llr := Ratios(points, amps, ES_NO, rms);
            (llr[2 * i] < 0.0 <==> word[2 * i] == 1) && (llr[2 * i + 1] < 0.0 <==> word[2 * i + 1] == 1)
  {
    ClearBit(points[i], rms, word[2 * i], word[2 * i + 1]);
    RatiosAt(points, amps, ES_NO, rms, i);
  }

  lemma SignsByPairs(llr: seq<real>, word: seq<bit>, n: nat)
    requires |llr| == |word| == 2 * n
    requires forall i :: 0 <= i < n ==>
               (llr[2 * i] < 0.0 <==> word[2 * i] == 1) && (llr[2 * i + 1] < 0.0 <==> word[2 * i + 1] == 1)
    ensures HardBits(llr) == word
  {
    forall b | 0 <= b < 2 * n
      ensures HardBits(llr)[b] == word[b]
    {
      var i := b / 2;
      assert b == 2 * i || b == 2 * i + 1;
    }
  }

  lemma ClearBits(points: seq<Point>, amps: seq<real>, rms: real, word: seq<bit>)
    requires NearWord(points, word, rms) && |amps| == |points| && forall i :: 0 <= i < |amps| ==> amps[i] == rms
    ensures HardBits(Ratios(points, amps, ES_NO, rms)) == word
  {
    var llr := Ratios(points, amps, ES_NO, rms);
    forall i | 0 <= i < |points|
      ensures (llr[2 * i] < 0.0 <==> word[2 * i] == 1) && (llr[2 * i + 1] < 0.0 <==> word[2 * i + 1] == 1)
    {
      NearPair(points, amps, rms, word, i);
    }
    SignsByPairs(llr, word, |points|);
  }

  lemma ClearInOrder(syms: seq<real>, word: seq<bit>, rms: real)
    requires Clear(syms, word, rms)
    ensures NearWord(Deinterleaved(GP_B, GP_N, Points(syms)), word, rms)
  {
    var points := Deinterleaved(GP_B, GP_N, Points(syms));
    assert forall i :: 0 <= i < GP_N ==> points[i] == PointAt(syms, Slot(GP_B, GP_N, i));
  }

  lemma CodewordIsRead(phi: real -> real, code: Code, llr: seq<real>, field: seq<bv8>)
    requires Sized(code) && Transposed(code) && code.n == NDATA && NonNegative(phi) && |llr| == CODELENGTH
    requires Field(field) && HardBits(llr) == Word(code, field)
    ensures var r := DecodeLlr(phi, code, llr); r.even == NDATA && FieldFrom(r.bits) == field
  {
    EncodedIffCodeword(code, InfoBits(field), ParityBits(code, InfoBits(field)));
    CodewordIffFirstIteration(phi, code, llr);
    assert Word(code, field)[..NDATA] == InfoBits(field);
    FieldFromBits(Word(code, field));
    BitsDetermineField(FieldFrom(Word(code, field)), field);
  }

  /** Whatever the channel did, as long as every symbol stays nearest to what was sent by the
      margin, the text is heard: for any tables that fit and any non-negative phi. */
  lemma ClearIsHeard(phi: real -> real, code: Code, sqrt: real -> real, text: seq<bv8>, syms: seq<real>)
    requires Sized(code) && Transposed(code) && code.n == NDATA && NonNegative(phi)
    requires CODELENGTH <= |syms| && Clear(syms, Word(code, FieldOf(text)), sqrt(MeanSquare(syms)))
    ensures Heard(phi, code, sqrt, syms) == Some(HeardOf(text))
  {
    var word := Word(code, FieldOf(text));
    var rms := sqrt(MeanSquare(syms));
    ClearInOrder(syms, word, rms);
    ClearBits(Deinterleaved(GP_B, GP_N, Points(syms)), seq(GP_N, _ => rms), rms, word);
    CodewordIsRead(phi, code, Demodulated(sqrt, syms), FieldOf(text));
    VerdictOfField(text);
  }

  // ---------------------------------------------------------------- an exact channel

  predicate AllOf(points: seq<Point>, energy: real) {
    forall i :: 0 <= i < |points| ==> Squares(points[i].re, points[i].im) == energy
  }

  lemma Distribute(x: real, y: real, z: real)
    ensures x * z + y * z == (x + y) * z
  {
  }

  lemma {:induction false} EqualEnergy(points: seq<Point>, energy: real)
    requires AllOf(points, energy)
    ensures Energy(points) == (|points| as real) * energy
  {
    if points != [] {
      EqualEnergy(points[..|points| - 1], energy);
      Distribute((|points| - 1) as real, 1.0, energy);
    }
  }

  lemma GainSquares(p: Point, q: Point, gain: real)
    requires q.re == gain * p.re && q.im == gain * p.im && Squares(p.re, p.im) == 1.0
    ensures Squares(q.re, q.im) == gain * gain
  {
    assert q.re * q.re == gain * gain * (p.re * p.re);
    assert q.im * q.im == gain * gain * (p.im * p.im);
    assert q.re * q.re + q.im * q.im == gain * gain * (p.re * p.re + p.im * p.im);
  }

  lemma PositiveProduct(x: real, y: real)
    requires x > 0.0 && y > 0.0
    ensures x * y > 0.0
  {
  }

  lemma SmallerSquare(a: real, b: real)
    requires 0.0 <= a < b
    ensures a * a < b * b
  {
    var d, s := b - a, b + a;
    PositiveProduct(d, s);
    assert d * s == b * b - a * a;
  }

  lemma SameSquare(r: real, g: real)
    requires r >= 0.0 && g > 0.0 && r * r == g * g
    ensures r == g
  {
    if r < g {
      SmallerSquare(r, g);
    } else if r > g {
      SmallerSquare(g, r);
    }
  }

  lemma RootOfSquare(sqrt: real -> real, gain: real)
    requires IsRoot(sqrt) && gain > 0.0
    ensures sqrt(gain * gain) == gain
  {
    assert gain * gain >= 0.0;
    SameSquare(sqrt(gain * gain), gain);
  }

  lemma Average(n: real, x: real)
    requires n > 0.0
    ensures n * x / n == x
  {
  }

  /** got is sent with every value multiplied by the gain. */
  ghost predicate Amplified(sent: seq<real>, got: seq<real>, gain: real) {
    |got| == |sent| && forall i :: 0 <= i < |sent| ==> got[i] == gain * sent[i]
  }

  lemma SentPointUnit(sent: seq<real>, word: seq<bit>, j: nat)
    requires |word| == CODELENGTH && Carries(sent, word) && j < |sent| / 2
    ensures Squares(sent[2 * j], sent[2 * j + 1]) == 1.0
  {
    if j < GP_N {
      GoldenPrimeCoprime();
      var i := EveryPlaceFilled(GP_B, GP_N, j);
      assert PointAt(sent, Slot(GP_B, GP_N, i)) == Mapped(word[2 * i], word[2 * i + 1]);
    }
  }

  lemma GainEnergy(sent: seq<real>, got: seq<real>, word: seq<bit>, gain: real)
    requires |word| == CODELENGTH && Carries(sent, word) && Amplified(sent, got, gain)
    ensures AllOf(Points(got), gain * gain)
  {
    var points := Points(got);
    forall j | 0 <= j < |points|
      ensures Squares(points[j].re, points[j].im) == gain * gain
    {
      SentPointUnit(sent, word, j);
      GainSquares(PointAt(sent, j), points[j], gain);
    }
  }

  lemma DeinterleavedAll(points: seq<Point>, b: nat, n: nat, energy: real)
    requires 0 < n <= |points| && AllOf(points, energy)
    ensures AllOf(Deinterleaved(b, n, points), energy)
  {
    var used := Deinterleaved(b, n, points);
    assert forall i :: 0 <= i < |used| ==> used[i] == points[Slot(b, n, i)];
  }

  lemma MeanOfEqual(got: seq<real>, energy: real)
    requires CODELENGTH <= |got| && AllOf(Points(got), energy)
    ensures MeanSquare(got) == energy
  {
    var points := Points(got);
    DeinterleavedAll(points, GP_B, GP_N, energy);
    EqualEnergy(Deinterleaved(GP_B, GP_N, points), energy);
    EqualEnergy(points[GP_N..], energy);
    Distribute(GP_N as real, (|points| - GP_N) as real, energy);
    Average(|points| as real, energy);
  }

  /** Every symbol sent has energy one, so a gain shows up as the root mean square. */
  lemma GainMeanSquare(sent: seq<real>, got: seq<real>, word: seq<bit>, gain: real)
    requires |word| == CODELENGTH && Carries(sent, word) && Amplified(sent, got, gain)
    ensures MeanSquare(got) == gain * gain
  {
    GainEnergy(sent, got, word, gain);
    MeanOfEqual(got, gain * gain);
  }

  lemma ExactIsClear(sent: seq<real>, got: seq<real>, word: seq<bit>, gain: real)
    requires |word| == CODELENGTH && Carries(sent, word) && Amplified(sent, got, gain) && gain > 0.0
    ensures Clear(got, word, gain)
  {
    forall i | 0 <= i < GP_N
      ensures Near(Scaled(PointAt(got, Slot(GP_B, GP_N, i)), gain), Index(word[2 * i], word[2 * i + 1]))
    {
      var j := Slot(GP_B, GP_N, i);
      var p := Mapped(word[2 * i], word[2 * i + 1]);
      assert PointAt(sent, j) == p;
      Cancel(gain, p.re);
      Cancel(gain, p.im);
      assert Scaled(PointAt(got, j), gain) == p;
      ExactIsNear(word[2 * i], word[2 * i + 1]);
    }
  }

  lemma AmplifiedIsHeard(phi: real -> real, code: Code, sqrt: real -> real, text: seq<bv8>, sent: seq<real>,
                         got: seq<real>, gain: real)
    requires Sized(code) && Transposed(code) && code.n == NDATA && NonNegative(phi) && IsRoot(sqrt)
    requires Carries(sent, Word(code, FieldOf(text))) && Amplified(sent, got, gain) && gain > 0.0
    ensures CODELENGTH <= |got| && sqrt(MeanSquare(got)) != 0.0
    ensures Heard(phi, code, sqrt, got) == Some(HeardOf(text))
  {
    var word := Word(code, FieldOf(text));
    GainMeanSquare(sent, got, word, gain);
    RootOfSquare(sqrt, gain);
    ExactIsClear(sent, got, word, gain);
    ClearIsHeard(phi, code, sqrt, text, got);
  }

  /** The codec with its actual tables: sends a text at any gain over an exact channel of any size
      and hears it. */
  method Loopback(sqrt: real -> real, text: seq<bv8>, symSize: nat, gain: real) returns (heard: Option<seq<bv8>>)
    requires IsRoot(sqrt) && CODELENGTH <= symSize && gain > 0.0
    ensures heard == Some(HeardOf(text))
    ensures heard == Some(Wanted(Head(text, TEXT_LENGTH))) <==> SLASH !in BeforeNul(Head(text, TEXT_LENGTH))
  {
    TablesFit();
    FreshGraphBounded(HRA, seq(2 * HRA.n, _ => 0.0));
    var sent := new real[symSize];
    GenerateTxString(HRA, text, sent);
    var got := seq(symSize, i requires 0 <= i < symSize reads sent => gain * sent[i]);
    AmplifiedIsHeard(Phi0, HRA, sqrt, text, sent[..], got, gain);
    heard := TextRx(Phi0, HRA, sqrt, got);
    RecoveredIffNoSlash(Head(text, TEXT_LENGTH));
  }
}
