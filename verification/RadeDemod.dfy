/** QPSK symbols and their log-likelihood ratios. */
module RadeDemod {
  import opened RadeCode

  datatype Point = Point(re: real, im: real)

  const QPSK_M := 4

  const ES_NO := 3.0

  /** S_matrix. */
  function Constellation(j: int): Point {
    if j == 0 then Point(1.0, 0.0)
    else if j == 1 then Point(0.0, 1.0)
    else if j == 2 then Point(0.0, -1.0)
    else Point(-1.0, 0.0)
  }

  /** The sender's map from a pair of bits to a symbol. */
  function Mapped(b0: bit, b1: bit): Point {
    if b0 == 0 && b1 == 0 then Point(1.0, 0.0)
    else if b0 == 0 && b1 == 1 then Point(0.0, 1.0)
    else if b0 == 1 && b1 == 0 then Point(0.0, -1.0)
    else Point(-1.0, 0.0)
  }

  function Index(b0: bit, b1: bit): int { 2 * (b0 as int) + b1 }

  /** Bit k of symbol number j, most significant first. */
  function BitOf(j: int, k: int): int { if k == 0 then j / 2 else j % 2 }

  const AJIAN := -0.24904163195436

  const TJIAN := 2.50681740420944

  /** max_star0. */
  function MaxStar(d1: real, d2: real): real {
    var diff := d2 - d1;
    if diff > TJIAN then d2
    else if diff < -TJIAN then d1
    else if diff > 0.0 then d2 + AJIAN * (diff - TJIAN)
    else d1 - AJIAN * (diff + TJIAN)
  }

  const FLOOR := -1000000.0

  /** The likelihoods of the symbols below j whose bit k is b, put together. */
  function Group(lk: int -> real, k: int, b: int, j: nat): real {
    if j == 0 then FLOOR
    else if BitOf(j - 1, k) == b then MaxStar(Group(lk, k, b, j - 1), lk(j - 1))
    else Group(lk, k, b, j - 1)
  }

  function Llr(lk: int -> real, k: int): real { -(Group(lk, k, 1, QPSK_M) - Group(lk, k, 0, QPSK_M)) }

  function Squares(x: real, y: real): real { x * x + y * y }

  function Likelihood(sym: Point, amp: real, esNo: real, mean: real, j: int): real
    requires mean != 0.0
  {
    -esNo * Squares(sym.re / mean - amp * Constellation(j).re / mean,
                    sym.im / mean - amp * Constellation(j).im / mean)
  }

  function Likelihoods(sym: Point, amp: real, esNo: real, mean: real): int -> real
    requires mean != 0.0
  {
    j => Likelihood(sym, amp, esNo, mean, j)
  }

  /** The Somap step for one symbol. */
  method SoftBits(lk: seq<real>, ghost of: int -> real) returns (num: seq<real>, den: seq<real>)
    requires |lk| == QPSK_M && forall j :: 0 <= j < QPSK_M ==> lk[j] == of(j)
    ensures |num| == |den| == 2
    ensures forall k :: 0 <= k < 2 ==> num[k] == Group(of, k, 1, QPSK_M) && den[k] == Group(of, k, 0, QPSK_M)
  {
    num, den := [FLOOR, FLOOR], [FLOOR, FLOOR];
    var j := 0;
    while j < QPSK_M
      invariant 0 <= j <= QPSK_M && |num| == |den| == 2
      invariant forall k :: 0 <= k < 2 ==> num[k] == Group(of, k, 1, j) && den[k] == Group(of, k, 0, j)
    {
      var k := 0;
      while k < 2
        invariant 0 <= k <= 2 && |num| == |den| == 2
        invariant forall q :: 0 <= q < 2 ==>
                    var upTo := if q < k then j + 1 else j;
                    num[q] == Group(of, q, 1, upTo) && den[q] == Group(of, q, 0, upTo)
      {
        if BitOf(j, k) == 1 {
          num := num[k := MaxStar(num[k], lk[j])];
        } else {
          den := den[k := MaxStar(den[k], lk[j])];
        }
        k := k + 1;
      }
      j := j + 1;
    }
  }

  /** The ratios of all bits of all symbols. */
  function Ratios(syms: seq<Point>, amps: seq<real>, esNo: real, mean: real): (r: seq<real>)
    requires mean != 0.0 && |syms| == |amps|
    ensures |r| == 2 * |syms|
  {
    seq(2 * |syms|, b requires 0 <= b < 2 * |syms| => Llr(Likelihoods(syms[b / 2], amps[b / 2], esNo, mean), b % 2))
  }

  lemma RatiosAt(syms: seq<Point>, amps: seq<real>, esNo: real, mean: real, i: nat)
    requires mean != 0.0 && |syms| == |amps| && i < |syms|
    ensures Ratios(syms, amps, esNo, mean)[2 * i] == Llr(Likelihoods(syms[i], amps[i], esNo, mean), 0)
    ensures Ratios(syms, amps, esNo, mean)[2 * i + 1] == Llr(Likelihoods(syms[i], amps[i], esNo, mean), 1)
  {
    assert 2 * i / 2 == (2 * i + 1) / 2 == i && 2 * i % 2 == 0 && (2 * i + 1) % 2 == 1;
  }

  method SymbolsToLlrs(llr: array<real>, syms: seq<Point>, amps: seq<real>, esNo: real, mean: real)
    requires mean != 0.0 && |syms| == |amps| && llr.Length == 2 * |syms|
    modifies llr
    ensures llr[..] == Ratios(syms, amps, esNo, mean)
  {
    ghost var want := Ratios(syms, amps, esNo, mean);
    var i := 0;
    while i < |syms|
      invariant 0 <= i <= |syms|
      invariant forall b :: 0 <= b < 2 * i ==> llr[b] == want[b]
    {
      var of := Likelihoods(syms[i], amps[i], esNo, mean);
      var num, den := SoftBits([of(0), of(1), of(2), of(3)], of);
      RatiosAt(syms, amps, esNo, mean, i);
      llr[2 * i] := -(num[0] - den[0]);
      llr[2 * i + 1] := -(num[1] - den[1]);
      i := i + 1;
    }
  }

  // ---------------------------------------------------------------- signs

  function Max(a: real, b: real): real { if a < b then b else a }

  const SLACK := 0.6244

  /** The piecewise-linear max* never falls below the maximum and exceeds it by less than SLACK. */
  lemma MaxStarBounds(d1: real, d2: real)
    ensures Max(d1, d2) <= MaxStar(d1, d2) <= Max(d1, d2) + SLACK
    ensures d2 > d1 + 3.0 ==> MaxStar(d1, d2) == d2
    ensures MaxStar(d1, d2) == MaxStar(d2, d1)
  {
  }

  /** What it adds to the maximum falls in a line from 0.6243, where log 2 is meant, to nothing when the
      two are 2.5068 apart. */
  lemma MaxStarFalls(d1: real, d2: real)
    ensures var gap := if d1 < d2 then d2 - d1 else d1 - d2; var more := MaxStar(d1, d2) - Max(d1, d2);
            && (gap == 0.0 ==> 0.6242 <= more <= 0.6244)
            && (gap <= 2.5068 ==> -0.0001 <= more - 0.24904 * (2.5068 - gap) <= 0.0001)
            && (gap > 2.50682 ==> more == 0.0)
  {
  }

  lemma GroupOfTwo(lk: int -> real, k: int, b: int)
    requires 0 <= k < 2 && 0 <= b < 2
    ensures var i := if k == 0 then 2 * b else b; var j := if k == 0 then 2 * b + 1 else b + 2;
            Group(lk, k, b, QPSK_M) == MaxStar(MaxStar(FLOOR, lk(i)), lk(j))
  {
    assert Group(lk, k, b, 0) == FLOOR;
    assert Group(lk, k, b, 1) == if BitOf(0, k) == b then MaxStar(FLOOR, lk(0)) else FLOOR;
    assert Group(lk, k, b, 2) == if BitOf(1, k) == b then MaxStar(Group(lk, k, b, 1), lk(1)) else Group(lk, k, b, 1);
    assert Group(lk, k, b, 3) == if BitOf(2, k) == b then MaxStar(Group(lk, k, b, 2), lk(2)) else Group(lk, k, b, 2);
  }

  /** All likelihoods are above the floor, and that of the symbol sent exceeds the others by more than the slack. */
  predicate StandsOut(lk: int -> real, sent: int) {
    && 0 <= sent < QPSK_M
    && forall j :: 0 <= j < QPSK_M ==> lk(j) > FLOOR + 3.0 && (j != sent ==> lk(sent) > lk(j) + SLACK)
  }

  /** Then the signs of the ratios spell the bits of the symbol sent. */
  lemma SignsSpellTheSymbol(lk: int -> real, sent: int, k: int)
    requires StandsOut(lk, sent) && 0 <= k < 2
    ensures if BitOf(sent, k) == 1 then Llr(lk, k) < 0.0 else Llr(lk, k) > 0.0
  {
    forall b | 0 <= b < 2
      ensures if b == BitOf(sent, k) then Group(lk, k, b, QPSK_M) >= lk(sent)
              else Group(lk, k, b, QPSK_M) < lk(sent)
    {
      GroupOfTwo(lk, k, b);
      var i := if k == 0 then 2 * b else b;
      var j := if k == 0 then 2 * b + 1 else b + 2;
      MaxStarBounds(FLOOR, lk(i));
      MaxStarBounds(lk(i), lk(j));
    }
  }

  function Distance(p: Point, j: int): real {
    Squares(p.re - Constellation(j).re, p.im - Constellation(j).im)
  }

  /** A symbol at least MARGIN nearer to one point of the constellation than to the others, and not absurdly far out. */
  const MARGIN := 0.21

  predicate Near(p: Point, sent: int) {
    && 0 <= sent < QPSK_M
    && forall j :: 0 <= j < QPSK_M ==>
         Distance(p, j) < 300000.0 && (j != sent ==> Distance(p, j) >= Distance(p, sent) + MARGIN)
  }

  function Scaled(p: Point, unit: real): Point
    requires unit != 0.0
  {
    Point(p.re / unit, p.im / unit)
  }

  lemma Cancel(a: real, x: real)
    requires a != 0.0
    ensures a * x / a == x
  {
  }

  lemma LikelihoodIsDistance(sym: Point, rms: real, j: int)
    requires rms != 0.0
    ensures Likelihood(sym, rms, ES_NO, rms, j) == -ES_NO * Distance(Scaled(sym, rms), j)
  {
    Cancel(rms, Constellation(j).re);
    Cancel(rms, Constellation(j).im);
  }

  lemma NearStandsOut(sym: Point, rms: real, sent: int)
    requires rms != 0.0 && Near(Scaled(sym, rms), sent)
    ensures StandsOut(Likelihoods(sym, rms, ES_NO, rms), sent)
  {
    forall j | 0 <= j < QPSK_M
      ensures Likelihoods(sym, rms, ES_NO, rms)(j) == -ES_NO * Distance(Scaled(sym, rms), j)
    {
      LikelihoodIsDistance(sym, rms, j);
    }
  }

  lemma SmallSquares(x: real)
    ensures x == 0.0 ==> x * x == 0.0
    ensures x == 1.0 || x == -1.0 ==> x * x == 1.0
    ensures x == 2.0 || x == -2.0 ==> x * x == 4.0
  {
  }

  lemma PointsApart(i: int, j: int)
    requires 0 <= i < QPSK_M && 0 <= j < QPSK_M
    ensures Distance(Constellation(i), j) == if i == j then 0.0 else if i + j == 3 then 4.0 else 2.0
  {
    SmallSquares(Constellation(i).re - Constellation(j).re);
    SmallSquares(Constellation(i).im - Constellation(j).im);
  }

  lemma PointIsNear(sent: int)
    requires 0 <= sent < QPSK_M
    ensures Near(Constellation(sent), sent)
  {
    forall j | 0 <= j < QPSK_M
      ensures Distance(Constellation(sent), j) == if sent == j then 0.0 else if sent + j == 3 then 4.0 else 2.0
    {
      PointsApart(sent, j);
    }
  }

  /** A symbol received exactly is near what was sent, and both tables agree on it. */
  lemma ExactIsNear(b0: bit, b1: bit)
    ensures Mapped(b0, b1) == Constellation(Index(b0, b1)) && Near(Mapped(b0, b1), Index(b0, b1))
    ensures BitOf(Index(b0, b1), 0) == b0 && BitOf(Index(b0, b1), 1) == b1
  {
    PointIsNear(Index(b0, b1));
  }
}
