/** A reception with one symbol across the boundary to its neighbour: the text is heard all the same. */
module RadeWeakSymbol {
  import opened Bytes
  import opened Options
  import opened RadeCode
  import opened RadeCorrection
  import opened RadeDecoder
  import opened RadeDecoderLaws
  import opened RadeDemod
  import opened RadeField
  import opened RadeGraph
  import opened RadeInterleaver
  import opened RadeLoopback
  import opened RadeOneBad
  import opened RadePhi
  import opened RadeTables
  import opened RadeText

  // ---------------------------------------------------------------- the actual decoder

  /** A ratio that may be wrong, and what all others must be. */
  const WEAK := 1.0

  const SURE := 5.0

  lemma Phi0Values()
    ensures Phi0(1.0) == 0.745880827 && Phi0(0.745880827) == 0.922449644
    ensures Phi0(3.155100712) == 0.085221814 && Phi0(0.340887256) == 1.912825912
  {
    assert Si16(1.0) == 65536 && Si16(5.0) == 327680 && Si16(10.0) == 655360;
    assert Si16(0.745880827) == 48882 && Si16(3.155100712) == 206772 && Si16(0.340887256) == 22340;
    assert PhiFix(65536) == MidTable(63) && PhiFix(206772) == MidTable(29);
  }

  lemma Phi0Corrects()
    ensures NonNegative(Phi0) && Falls(Phi0) && Corrects(Phi0, WEAK, SURE)
  {
    Phi0Values();
    forall x: real ensures Phi0(x) >= 0.0 {
      PhiAntitone(x, x);
    }
    forall x: real, y: real | x <= y ensures Phi0(y) <= Phi0(x) {
      PhiAntitone(x, y);
    }
  }

  /** How many checks each bit takes part in. */
  lemma HraDegrees(x: nat)
    requires x < 2 * HRA.n
    ensures Sized(HRA) && Transposed(HRA)
    ensures |Checks(HRA, x)| == if x < HRA.n then 3 else if x < 2 * HRA.n - 1 then 2 else 1
  {
    TablesFit();
    if x < HRA.n {
      TablesMutual();
      MutualAt(Col, Row, x);
      FlatLine(Col, x);
    }
  }

  /** One bad ratio up to 1, all others at least 5: the word is what comes out, after two iterations with
      all 56 checks even, or after all hundred with 55 when it is the last parity bit. */
  lemma HraCorrects(word: seq<bit>, llr: seq<real>, x: nat)
    requires Sized(HRA) && |word| == |llr| == 2 * HRA.n && x < 2 * HRA.n && IsCodeword(HRA, word)
    requires OneBad(word, llr, x, WEAK, SURE)
    ensures var r := Decode(Phi0, CheckNodes(HRA), VariableNodes(Phi0, HRA, llr), 0);
            r == if x < 111 || llr[x] == 0.0 then Outcome(2, 56, word) else Outcome(100, 55, word)
  {
    HraDegrees(x);
    Phi0Corrects();
    OneBadOutcome(Phi0, HRA, word, llr, x, WEAK, SURE);
  }

  /** The error estimate passes exactly from 45 even checks on; then the CRC decides. */
  lemma EnoughChecksIff(even: nat, raw: seq<bv8>)
    requires |raw| == TEXT_LENGTH + 2
    ensures even < 45 ==> Verdict(even, raw) == None
    ensures even >= 45 ==> Verdict(even, raw) == Verdict(NDATA, raw)
  {
    assert even >= 45 <==> ((NDATA - even) as real) / (NDATA as real) < 0.2;
  }

  lemma WordSpellsField(word: seq<bit>, field: seq<bv8>)
    requires Field(field) && |word| >= NDATA && word[..NDATA] == InfoBits(field)
    ensures FieldFrom(word) == field
  {
    FieldFromBits(word);
    BitsDetermineField(FieldFrom(word), field);
  }

  /** So a reception with one such ratio is heard. */
  lemma OneBadRatioIsHeard(sqrt: real -> real, text: seq<bv8>, syms: seq<real>, x: nat)
    requires Sized(HRA) && CODELENGTH <= |syms| && sqrt(MeanSquare(syms)) != 0.0
    requires OneBad(Word(HRA, FieldOf(text)), Demodulated(sqrt, syms), x, WEAK, SURE)
    ensures Heard(Phi0, HRA, sqrt, syms) == Some(HeardOf(text))
  {
    var field, llr := FieldOf(text), Demodulated(sqrt, syms);
    var word := Word(HRA, field);
    EncodedIffCodeword(HRA, InfoBits(field), ParityBits(HRA, InfoBits(field)));
    HraCorrects(word, llr, x);
    WordSpellsField(word, field);
    EnoughChecksIff(DecodeLlr(Phi0, HRA, llr).even, field);
    VerdictOfField(text);
  }

  // ---------------------------------------------------------------- ratios of sure and weak symbols

  /** The symbol that differs in bit k. */
  function Neighbour(j: int, k: int): int {
    if k == 0 then (if j < 2 then j + 2 else j - 2) else (if j % 2 == 0 then j + 1 else j - 1)
  }

  const GAP := 5.625

  /** All likelihoods above the floor. */
  predicate AboveFloor(lk: int -> real) { forall j :: 0 <= j < QPSK_M ==> lk(j) > FLOOR + 3.0 }

  lemma GroupAboveFloor(lk: int -> real, k: int, b: int)
    requires 0 <= k < 2 && 0 <= b < 2 && AboveFloor(lk)
    ensures var i := if k == 0 then 2 * b else b; var j := if k == 0 then 2 * b + 1 else b + 2;
            Group(lk, k, b, QPSK_M) == MaxStar(lk(i), lk(j))
  {
    GroupOfTwo(lk, k, b);
    MaxStarBounds(FLOOR, lk(if k == 0 then 2 * b else b));
  }

  lemma RatioIs(lk: int -> real, k: int)
    requires AboveFloor(lk) && 0 <= k < 2
    ensures Llr(lk, k) == if k == 0 then MaxStar(lk(0), lk(1)) - MaxStar(lk(2), lk(3))
                          else MaxStar(lk(0), lk(2)) - MaxStar(lk(1), lk(3))
  {
    GroupAboveFloor(lk, k, 0);
    GroupAboveFloor(lk, k, 1);
  }

  lemma MaxStarSymmetric(a: real, b: real)
    ensures MaxStar(a, b) == MaxStar(b, a)
  {
    MaxStarBounds(a, b);
  }

  lemma TowardIs0(lk: int -> real, sent: int)
    requires AboveFloor(lk) && 0 <= sent < QPSK_M
    ensures Toward(BitOf(sent, 0), Llr(lk, 0))
         == MaxStar(lk(sent), lk(Neighbour(sent, 1))) - MaxStar(lk(Neighbour(sent, 0)), lk(3 - sent))
  {
    RatioIs(lk, 0);
    MaxStarSymmetric(lk(0), lk(1));
    MaxStarSymmetric(lk(2), lk(3));
  }

  lemma TowardIs1(lk: int -> real, sent: int)
    requires AboveFloor(lk) && 0 <= sent < QPSK_M
    ensures Toward(BitOf(sent, 1), Llr(lk, 1))
         == MaxStar(lk(sent), lk(Neighbour(sent, 0))) - MaxStar(lk(Neighbour(sent, 1)), lk(3 - sent))
  {
    RatioIs(lk, 1);
    MaxStarSymmetric(lk(0), lk(2));
    MaxStarSymmetric(lk(1), lk(3));
  }

  /** A ratio compares the symbols that share the bit with the one sent to those that do not. */
  lemma TowardIs(lk: int -> real, sent: int, k: int)
    requires AboveFloor(lk) && 0 <= sent < QPSK_M && 0 <= k < 2
    ensures Toward(BitOf(sent, k), Llr(lk, k))
         == MaxStar(lk(sent), lk(Neighbour(sent, 1 - k))) - MaxStar(lk(Neighbour(sent, k)), lk(3 - sent))
  {
    if k == 0 {
      TowardIs0(lk, sent);
    } else {
      TowardIs1(lk, sent);
    }
  }

  /** The one sent, its companion, and two that are far below. */
  lemma FarBelow(s: real, p: real, o: real, q: real)
    requires s >= o + GAP && s >= q + GAP
    ensures MaxStar(s, p) - MaxStar(o, q) >= SURE
  {
    MaxStarBounds(s, p);
    MaxStarBounds(o, q);
  }

  /** The one sent, just below its neighbour, and two that are far below. */
  lemma JustBelow(s: real, p: real, o: real, q: real)
    requires o - WEAK <= s < o && s >= p + GAP && s >= q + GAP
    ensures -WEAK <= MaxStar(s, p) - MaxStar(o, q) < 0.0
  {
    MaxStarBounds(p, s);
    MaxStarBounds(q, o);
    MaxStarSymmetric(p, s);
    MaxStarSymmetric(q, o);
  }

  /** A symbol that stands out by the gap gives two sure ratios. */
  lemma SureRatio(lk: int -> real, sent: int, k: int)
    requires AboveFloor(lk) && 0 <= sent < QPSK_M && 0 <= k < 2
    requires forall j :: 0 <= j < QPSK_M && j != sent ==> lk(sent) >= lk(j) + GAP
    ensures Toward(BitOf(sent, k), Llr(lk, k)) >= SURE
  {
    TowardIs(lk, sent, k);
    FarBelow(lk(sent), lk(Neighbour(sent, 1 - k)), lk(Neighbour(sent, k)), lk(3 - sent));
  }

  /** The symbol that differs in bit k is likelier by at most what may be wrong, the others stand back. */
  predicate JustBeaten(lk: int -> real, sent: int, k: int) {
    && AboveFloor(lk) && 0 <= sent < QPSK_M && 0 <= k < 2
    && var other := Neighbour(sent, k);
    && lk(other) - WEAK <= lk(sent) < lk(other)
    && forall j :: 0 <= j < QPSK_M && j != sent && j != other ==> lk(sent) >= lk(j) + GAP
  }

  /** One just across the boundary to its neighbour gives one ratio that is wrong but weak, and one that
      is right and sure. */
  lemma WeakRatio(lk: int -> real, sent: int, k: int, weak: real, sure: real)
    requires JustBeaten(lk, sent, k) && weak == Llr(lk, k) && sure == Llr(lk, 1 - k)
    ensures -WEAK <= Toward(BitOf(sent, k), weak) < 0.0 && Toward(BitOf(sent, 1 - k), sure) >= SURE
  {
    var other, companion := Neighbour(sent, k), Neighbour(sent, 1 - k);
    TowardIs(lk, sent, k);
    TowardIs(lk, sent, 1 - k);
    JustBelow(lk(sent), lk(companion), lk(other), lk(3 - sent));
    FarBelow(lk(sent), lk(other), lk(companion), lk(3 - sent));
  }

  // ---------------------------------------------------------------- symbols

  predicate WithinReach(p: Point) { forall j :: 0 <= j < QPSK_M ==> Distance(p, j) < 300000.0 }

  /** Nearer to what was sent than to anything else by nearly the most there is: 2 is the distance, squared,
      of neighbours. */
  predicate Sure(p: Point, sent: int) {
    && 0 <= sent < QPSK_M && WithinReach(p)
    && forall j :: 0 <= j < QPSK_M && j != sent ==> Distance(p, j) >= Distance(p, sent) + 1.875
  }

  /** Nearer to the neighbour that differs in bit k, by up to a third. */
  predicate Across(p: Point, sent: int, k: int) {
    && 0 <= sent < QPSK_M && 0 <= k < 2 && WithinReach(p)
    && var other := Neighbour(sent, k);
    && Distance(p, other) < Distance(p, sent) <= Distance(p, other) + 1.0 / 3.0
    && forall j :: 0 <= j < QPSK_M && j != sent && j != other ==> Distance(p, j) >= Distance(p, sent) + 1.875
  }

  /** The one symbol across, or one of the others. */
  predicate AsExpected(p: Point, sent: int, weak: bool, k: int) {
    if weak then Across(p, sent, k) else Sure(p, sent)
  }

  lemma LikelihoodsAre(p: Point, rms: real)
    requires rms != 0.0
    ensures var lk := Likelihoods(p, rms, ES_NO, rms);
            forall j :: 0 <= j < QPSK_M ==> lk(j) == -3.0 * Distance(Scaled(p, rms), j)
  {
    forall j | 0 <= j < QPSK_M
      ensures Likelihoods(p, rms, ES_NO, rms)(j) == -3.0 * Distance(Scaled(p, rms), j)
    {
      LikelihoodIsDistance(p, rms, j);
    }
  }

  /** What the two ratios of a symbol are like. */
  predicate BitsOk(b0: bit, b1: bit, r0: real, r1: real, weak: bool, k: int) {
    if !weak then Toward(b0, r0) >= SURE && Toward(b1, r1) >= SURE
    else if k == 0 then -WEAK <= Toward(b0, r0) < 0.0 && Toward(b1, r1) >= SURE
    else Toward(b0, r0) >= SURE && -WEAK <= Toward(b1, r1) < 0.0
  }

  lemma SureSymbol(p: Point, rms: real, b0: bit, b1: bit, k: int)
    requires rms != 0.0 && Sure(Scaled(p, rms), Index(b0, b1))
    ensures var lk := Likelihoods(p, rms, ES_NO, rms); BitsOk(b0, b1, Llr(lk, 0), Llr(lk, 1), false, k)
  {
    var lk := Likelihoods(p, rms, ES_NO, rms);
    LikelihoodsAre(p, rms);
    SureRatio(lk, Index(b0, b1), 0);
    SureRatio(lk, Index(b0, b1), 1);
  }

  lemma AcrossIsBeaten(p: Point, rms: real, sent: int, k: int)
    requires rms != 0.0 && Across(Scaled(p, rms), sent, k)
    ensures JustBeaten(Likelihoods(p, rms, ES_NO, rms), sent, k)
  {
    LikelihoodsAre(p, rms);
  }

  lemma WeakBits(lk: int -> real, b0: bit, b1: bit, k: int, r0: real, r1: real)
    requires JustBeaten(lk, Index(b0, b1), k)
    requires Llr(lk, k) == (if k == 0 then r0 else r1) && Llr(lk, 1 - k) == (if k == 0 then r1 else r0)
    ensures BitsOk(b0, b1, r0, r1, true, k)
  {
    ExactIsNear(b0, b1);
    WeakRatio(lk, Index(b0, b1), k, if k == 0 then r0 else r1, if k == 0 then r1 else r0);
  }

  lemma WeakSymbol(p: Point, rms: real, b0: bit, b1: bit, k: int)
    requires rms != 0.0 && Across(Scaled(p, rms), Index(b0, b1), k)
    ensures var lk := Likelihoods(p, rms, ES_NO, rms); BitsOk(b0, b1, Llr(lk, 0), Llr(lk, 1), true, k)
  {
    AcrossIsBeaten(p, rms, Index(b0, b1), k);
    var lk := Likelihoods(p, rms, ES_NO, rms);
    WeakBits(lk, b0, b1, k, Llr(lk, 0), Llr(lk, 1));
  }

  /** All symbols that carry the word are sure, but number at, which is across in bit k. */
  ghost predicate OneWeak(syms: seq<real>, word: seq<bit>, rms: real, at: nat, k: int) {
    && |word| == CODELENGTH <= |syms| && rms != 0.0 && at < GP_N && 0 <= k < 2
    && forall i :: 0 <= i < GP_N ==>
         AsExpected(Scaled(PointAt(syms, Slot(GP_B, GP_N, i)), rms), Index(word[2 * i], word[2 * i + 1]), i == at, k)
  }

  predicate PairOk(word: seq<bit>, llr: seq<real>, i: nat, at: nat, k: int)
    requires |llr| == |word| && 2 * i + 1 < |word|
  {
    BitsOk(word[2 * i], word[2 * i + 1], llr[2 * i], llr[2 * i + 1], i == at, k)
  }

  lemma WeakPair(points: seq<Point>, amps: seq<real>, rms: real, word: seq<bit>, i: nat, k: int)
    requires |word| == 2 * |points| && i < |points| == |amps| && rms != 0.0 && amps[i] == rms
    requires Across(Scaled(points[i], rms), Index(word[2 * i], word[2 * i + 1]), k)
    ensures PairOk(word, Ratios(points, amps, ES_NO, rms), i, i, k)
  {
    RatiosAt(points, amps, ES_NO, rms, i);
    WeakSymbol(points[i], rms, word[2 * i], word[2 * i + 1], k);
  }

  lemma SurePair(points: seq<Point>, amps: seq<real>, rms: real, word: seq<bit>, i: nat, at: nat, k: int)
    requires |word| == 2 * |points| && i < |points| == |amps| && rms != 0.0 && amps[i] == rms
    requires i != at && 0 <= k < 2 && Sure(Scaled(points[i], rms), Index(word[2 * i], word[2 * i + 1]))
    ensures PairOk(word, Ratios(points, amps, ES_NO, rms), i, at, k)
  {
    SureSymbol(points[i], rms, word[2 * i], word[2 * i + 1], k);
    RatiosAt(points, amps, ES_NO, rms, i);
  }

  lemma PairsAreOk(sqrt: real -> real, syms: seq<real>, word: seq<bit>, at: nat, k: int, i: nat)
    requires CODELENGTH <= |syms| && sqrt(MeanSquare(syms)) != 0.0 && i < GP_N
    requires OneWeak(syms, word, sqrt(MeanSquare(syms)), at, k)
    ensures PairOk(word, Demodulated(sqrt, syms), i, at, k)
  {
    var rms, points := sqrt(MeanSquare(syms)), Deinterleaved(GP_B, GP_N, Points(syms));
    var amps := seq(GP_N, _ => rms);
    assert points[i] == PointAt(syms, Slot(GP_B, GP_N, i)) && amps[i] == rms;
    if i == at {
      WeakPair(points, amps, rms, word, i, k);
    } else {
      SurePair(points, amps, rms, word, i, at, k);
    }
  }

  lemma OneBadByPairs(word: seq<bit>, llr: seq<real>, n: nat, at: nat, k: int)
    requires |word| == |llr| == 2 * n && at < n && 0 <= k < 2
    requires forall i :: 0 <= i < n ==> PairOk(word, llr, i, at, k)
    ensures OneBad(word, llr, 2 * at + k, WEAK, SURE)
  {
    var x := 2 * at + k;
    forall b | 0 <= b < 2 * n
      ensures HardBits(llr)[b] == Flipped(word, x)[b]
      ensures b != x ==> Toward(word[b], llr[b]) >= SURE
    {
      assert PairOk(word, llr, b / 2, at, k);
      assert b == 2 * (b / 2) || b == 2 * (b / 2) + 1;
    }
    assert PairOk(word, llr, at, at, k);
  }

  /** Whatever the channel did: with one symbol across the boundary to a neighbour, by up to a third, and
      all others sure, the text is heard. */
  lemma OneWeakIsHeard(sqrt: real -> real, text: seq<bv8>, syms: seq<real>, at: nat, k: int)
    requires Sized(HRA) && CODELENGTH <= |syms| && sqrt(MeanSquare(syms)) != 0.0
    requires OneWeak(syms, Word(HRA, FieldOf(text)), sqrt(MeanSquare(syms)), at, k)
    ensures Heard(Phi0, HRA, sqrt, syms) == Some(HeardOf(text))
  {
    var word := Word(HRA, FieldOf(text));
    forall i | 0 <= i < GP_N ensures PairOk(word, Demodulated(sqrt, syms), i, at, k) {
      PairsAreOk(sqrt, syms, word, at, k, i);
    }
    OneBadByPairs(word, Demodulated(sqrt, syms), GP_N, at, k);
    OneBadRatioIsHeard(sqrt, text, syms, 2 * at + k);
  }

  // ---------------------------------------------------------------- such a reception

  /** Symbol j turned past the middle towards the one that differs in bit k, at the same strength. */
  function Turned(j: int, k: int): Point {
    var p, q := Constellation(j), Constellation(Neighbour(j, k));
    Point((20.0 * p.re + 21.0 * q.re) / 29.0, (20.0 * p.im + 21.0 * q.im) / 29.0)
  }

  lemma TurnedUnit(j: int, k: int)
    requires 0 <= j < QPSK_M && 0 <= k < 2
    ensures Squares(Turned(j, k).re, Turned(j, k).im) == 1.0
  {
  }

  lemma TurnedDistances(j: int, k: int, i: int)
    requires 0 <= j < QPSK_M && 0 <= k < 2 && 0 <= i < QPSK_M
    ensures Distance(Turned(j, k), i) == if i == j then 522.0 / 841.0 else if i == Neighbour(j, k) then 464.0 / 841.0
                                         else if i == 3 - j then 2842.0 / 841.0 else 2900.0 / 841.0
  {
  }

  lemma TurnedIsAcross(j: int, k: int)
    requires 0 <= j < QPSK_M && 0 <= k < 2
    ensures Across(Turned(j, k), j, k)
  {
    forall i | 0 <= i < QPSK_M
      ensures Distance(Turned(j, k), i) == if i == j then 522.0 / 841.0 else if i == Neighbour(j, k) then 464.0 / 841.0
                                           else if i == 3 - j then 2842.0 / 841.0 else 2900.0 / 841.0
    {
      TurnedDistances(j, k, i);
    }
  }

  lemma ExactIsSure(j: int)
    requires 0 <= j < QPSK_M
    ensures Sure(Constellation(j), j)
  {
    forall i | 0 <= i < QPSK_M
      ensures Distance(Constellation(j), i) == if i == j then 0.0 else if i + j == 3 then 4.0 else 2.0
    {
      PointsApart(j, i);
    }
  }

  /** What is received in place of point j, before the gain. */
  function Received(sent: seq<real>, word: seq<bit>, at: nat, k: int, j: nat): Point
    requires |word| == CODELENGTH && at < GP_N && 2 * j + 1 < |sent|
  {
    if j == Slot(GP_B, GP_N, at) then Turned(Index(word[2 * at], word[2 * at + 1]), k) else PointAt(sent, j)
  }

  /** got is sent at this gain, but for one symbol of the word, which is turned. */
  ghost predicate OneTurned(sent: seq<real>, got: seq<real>, word: seq<bit>, gain: real, at: nat, k: int)
    requires |word| == CODELENGTH <= |sent| && at < GP_N && 0 <= k < 2
  {
    && |got| == |sent|
    && forall j :: 0 <= j < |sent| / 2 ==>
         var p := Received(sent, word, at, k, j);
         PointAt(got, j) == Point(gain * p.re, gain * p.im)
  }

  lemma ReceivedUnit(sent: seq<real>, word: seq<bit>, at: nat, k: int, j: nat)
    requires |word| == CODELENGTH && Carries(sent, word) && at < GP_N && 0 <= k < 2 && 2 * j + 1 < |sent|
    ensures var p := Received(sent, word, at, k, j); Squares(p.re, p.im) == 1.0
  {
    SentPointUnit(sent, word, j);
    TurnedUnit(Index(word[2 * at], word[2 * at + 1]), k);
  }

  lemma GotSquares(sent: seq<real>, got: seq<real>, word: seq<bit>, gain: real, at: nat, k: int, j: nat)
    requires |word| == CODELENGTH <= |sent| && at < GP_N && 0 <= k < 2 && 2 * j + 1 < |sent|
    requires OneTurned(sent, got, word, gain, at, k)
    requires var p := Received(sent, word, at, k, j); Squares(p.re, p.im) == 1.0
    ensures Squares(PointAt(got, j).re, PointAt(got, j).im) == gain * gain
  {
    var p := Received(sent, word, at, k, j);
    assert PointAt(got, j) == Point(gain * p.re, gain * p.im);
    GainSquares(p, PointAt(got, j), gain);
  }

  lemma TurnedMeanSquare(sent: seq<real>, got: seq<real>, word: seq<bit>, gain: real, at: nat, k: int)
    requires |word| == CODELENGTH && Carries(sent, word) && at < GP_N && 0 <= k < 2
    requires OneTurned(sent, got, word, gain, at, k)
    ensures MeanSquare(got) == gain * gain
  {
    forall j | 0 <= j < |Points(got)|
      ensures Squares(Points(got)[j].re, Points(got)[j].im) == gain * gain
    {
      ReceivedUnit(sent, word, at, k, j);
      GotSquares(sent, got, word, gain, at, k, j);
    }
    MeanOfEqual(got, gain * gain);
  }

  lemma ScaledBack(p: Point, gain: real)
    requires gain != 0.0
    ensures Scaled(Point(gain * p.re, gain * p.im), gain) == p
  {
    Cancel(gain, p.re);
    Cancel(gain, p.im);
  }

  lemma DifferentSlots(i: nat, at: nat)
    requires i < GP_N && at < GP_N
    ensures Slot(GP_B, GP_N, i) == Slot(GP_B, GP_N, at) <==> i == at
  {
    GoldenPrimeCoprime();
    OneToOneIffCoprime(GP_B, GP_N);
  }

  lemma ReceivedSymbol(sent: seq<real>, word: seq<bit>, gain: real, at: nat, k: int, i: nat)
    requires |word| == CODELENGTH && Carries(sent, word) && at < GP_N && 0 <= k < 2 && gain != 0.0 && i < GP_N
    requires 2 * Slot(GP_B, GP_N, i) + 1 < |sent|
    ensures var p, j := Received(sent, word, at, k, Slot(GP_B, GP_N, i)), Index(word[2 * i], word[2 * i + 1]);
            AsExpected(p, j, i == at, k)
  {
    var j := Index(word[2 * i], word[2 * i + 1]);
    DifferentSlots(i, at);
    if i == at {
      TurnedIsAcross(j, k);
    } else {
      ExactIsNear(word[2 * i], word[2 * i + 1]);
      ExactIsSure(j);
    }
  }

  lemma GotSymbol(sent: seq<real>, got: seq<real>, word: seq<bit>, gain: real, at: nat, k: int, j: nat)
    requires |word| == CODELENGTH <= |sent| && at < GP_N && 0 <= k < 2 && gain != 0.0 && 2 * j + 1 < |sent|
    requires OneTurned(sent, got, word, gain, at, k)
    ensures Scaled(PointAt(got, j), gain) == Received(sent, word, at, k, j)
  {
    var p := Received(sent, word, at, k, j);
    assert PointAt(got, j) == Point(gain * p.re, gain * p.im);
    ScaledBack(p, gain);
  }

  lemma TurnedIsOneWeak(sent: seq<real>, got: seq<real>, word: seq<bit>, gain: real, at: nat, k: int)
    requires |word| == CODELENGTH && Carries(sent, word) && at < GP_N && 0 <= k < 2 && gain != 0.0
    requires OneTurned(sent, got, word, gain, at, k)
    ensures OneWeak(got, word, gain, at, k)
  {
    forall i | 0 <= i < GP_N
      ensures var p, j := Scaled(PointAt(got, Slot(GP_B, GP_N, i)), gain), Index(word[2 * i], word[2 * i + 1]);
              AsExpected(p, j, i == at, k)
    {
      ReceivedSymbol(sent, word, gain, at, k, i);
      GotSymbol(sent, got, word, gain, at, k, Slot(GP_B, GP_N, i));
    }
  }

  /** For every text, size, gain, symbol and bit: sent over a channel that turns that symbol past the
      middle towards its neighbour in that bit, the text is heard. */
  lemma TurnedIsHeard(sqrt: real -> real, text: seq<bv8>, sent: seq<real>, got: seq<real>, gain: real, at: nat, k: int)
    requires Sized(HRA) && IsRoot(sqrt) && gain > 0.0 && at < GP_N && 0 <= k < 2
    requires Carries(sent, Word(HRA, FieldOf(text)))
    requires OneTurned(sent, got, Word(HRA, FieldOf(text)), gain, at, k)
    ensures CODELENGTH <= |got| && sqrt(MeanSquare(got)) != 0.0
    ensures Heard(Phi0, HRA, sqrt, got) == Some(HeardOf(text))
  {
    var word := Word(HRA, FieldOf(text));
    TurnedMeanSquare(sent, got, word, gain, at, k);
    RootOfSquare(sqrt, gain);
    TurnedIsOneWeak(sent, got, word, gain, at, k);
    OneWeakIsHeard(sqrt, text, got, at, k);
  }
}
