/** What the receiver feeds its decoder: measured against the root mean square of everything received,
    no symbol is far enough out for the decoder's fixed-point conversions. */
module RadeRange {
  import opened RadeCode
  import opened RadeDecoder
  import opened RadeDecoderLaws
  import opened RadeDemod
  import opened RadeField
  import opened RadeGraph
  import opened RadeInterleaver
  import opened RadePhi
  import opened RadeText

  lemma GroupBounds(lk: int -> real, k: int, b: int, low: real)
    requires 0 <= k < 2 && 0 <= b < 2 && FLOOR <= low
    requires forall j :: 0 <= j < QPSK_M ==> low <= lk(j) <= 0.0
    ensures low <= Group(lk, k, b, QPSK_M) <= 2.0 * SLACK
  {
    GroupOfTwo(lk, k, b);
    var i := if k == 0 then 2 * b else b;
    var j := if k == 0 then 2 * b + 1 else b + 2;
    MaxStarBounds(FLOOR, lk(i));
    MaxStarBounds(MaxStar(FLOOR, lk(i)), lk(j));
  }

  lemma LlrBound(lk: int -> real, k: int, low: real)
    requires 0 <= k < 2 && FLOOR <= low
    requires forall j :: 0 <= j < QPSK_M ==> low <= lk(j) <= 0.0
    ensures Abs(Llr(lk, k)) <= 2.0 * SLACK - low
  {
    GroupBounds(lk, k, 0, low);
    GroupBounds(lk, k, 1, low);
  }

  lemma SquareSign(x: real)
    ensures x * x >= 0.0 && (x != 0.0 ==> x * x > 0.0)
  {
    var t := if x < 0.0 then -x else x;
    assert x * x == t * t;
  }

  /** The coordinate of p on the axis of point j of the constellation. */
  function Toward(p: Point, j: int): real {
    if j == 0 then p.re else if j == 1 then p.im else if j == 2 then -p.im else -p.re
  }

  lemma DistanceLinear(p: Point, j: int)
    requires 0 <= j < QPSK_M
    ensures Distance(p, j) == Squares(p.re, p.im) + 1.0 - 2.0 * Toward(p, j)
  {
    var s := Constellation(j);
    assert (p.re - s.re) * (p.re - s.re) == p.re * p.re - 2.0 * p.re * s.re + s.re * s.re;
    assert (p.im - s.im) * (p.im - s.im) == p.im * p.im - 2.0 * p.im * s.im + s.im * s.im;
  }

  lemma BelowSquare(x: real)
    ensures -(x * x) - 1.0 <= 2.0 * x <= x * x + 1.0
  {
    SquareSign(x - 1.0);
    SquareSign(x + 1.0);
    assert (x - 1.0) * (x - 1.0) == x * x - 2.0 * x + 1.0;
    assert (x + 1.0) * (x + 1.0) == x * x + 2.0 * x + 1.0;
  }

  /** Neither coordinate is more than half of one more than the energy. */
  lemma TowardBound(p: Point, j: int)
    requires 0 <= j < QPSK_M
    ensures -Squares(p.re, p.im) - 1.0 <= 2.0 * Toward(p, j) <= Squares(p.re, p.im) + 1.0
  {
    BelowSquare(p.re);
    BelowSquare(p.im);
    SquareSign(p.re);
    SquareSign(p.im);
    var re, im := p.re * p.re, p.im * p.im;
    assert Squares(p.re, p.im) == re + im && re >= 0.0 && im >= 0.0;
    assert -re - 1.0 <= 2.0 * p.re <= re + 1.0 && -im - 1.0 <= 2.0 * p.im <= im + 1.0;
  }

  lemma SquaresPositive(x: real, y: real)
    ensures Squares(x, y) >= 0.0
  {
    SquareSign(x);
    SquareSign(y);
  }

  /** No symbol has more energy than all of them. */
  lemma {:induction false} PartOfEnergy(points: seq<Point>, i: nat)
    ensures Energy(points) >= 0.0
    ensures i < |points| ==> Squares(points[i].re, points[i].im) <= Energy(points)
  {
    if points != [] {
      var last := points[|points| - 1];
      PartOfEnergy(points[..|points| - 1], i);
      SquaresPositive(last.re, last.im);
    }
  }

  lemma ScaledSquares(p: Point, unit: real)
    requires unit != 0.0
    ensures var u := Scaled(p, unit); Squares(u.re, u.im) * (unit * unit) == Squares(p.re, p.im)
  {
    var u := Scaled(p, unit);
    assert u.re * unit == p.re && u.im * unit == p.im;
    assert (u.re * u.re) * (unit * unit) == (u.re * unit) * (u.re * unit);
    assert (u.im * u.im) * (unit * unit) == (u.im * unit) * (u.im * unit);
  }

  lemma Product(a: real, b: real, c: real)
    requires a > 0.0 && b > 0.0 && a * b == c
    ensures c > 0.0
  {
  }

  /** x units make p, y units make q. */
  lemma Compared(x: real, y: real, unit: real, p: real, q: real)
    requires x * unit == p && y * unit == q && p <= q && unit > 0.0
    ensures x <= y
  {
    assert x * unit / unit == x && y * unit / unit == y;
    assert y - x == (y * unit - x * unit) / unit;
  }

  lemma Nonnegative(sum: real, total: real)
    requires sum >= 0.0 && total > 0.0
    ensures sum / total >= 0.0
  {
  }

  /** Measured in root mean squares, the energy of a symbol is at most the number of symbols. */
  lemma ScaledBound(sqrt: real -> real, syms: seq<real>, i: nat)
    requires IsRoot(sqrt) && CODELENGTH <= |syms| && sqrt(MeanSquare(syms)) != 0.0 && i < GP_N
    ensures var u := Scaled(Deinterleaved(GP_B, GP_N, Points(syms))[i], sqrt(MeanSquare(syms)));
            Squares(u.re, u.im) <= (|syms| / 2) as real
  {
    var points, rest := Deinterleaved(GP_B, GP_N, Points(syms)), Points(syms)[GP_N..];
    var mean, total := MeanSquare(syms), (|syms| / 2) as real;
    var rms := sqrt(mean);
    PartOfEnergy(points, i);
    PartOfEnergy(rest, 0);
    var sum := Energy(points) + Energy(rest);
    assert mean == sum / total && mean * total == sum;
    Nonnegative(sum, total);
    assert rms * rms == mean;
    ScaledSquares(points[i], rms);
    Product(rms, rms, mean);
    var u := Scaled(points[i], rms);
    Compared(Squares(u.re, u.im), total, mean, Squares(points[i].re, points[i].im), sum);
  }

  const REALISTIC := 10000

  /** So the ratios the receiver works on stay below 32000 for anything up to ten thousand channel
      values, whatever they are. */
  lemma RatiosBelow(sqrt: real -> real, syms: seq<real>, b: nat)
    requires IsRoot(sqrt) && CODELENGTH <= |syms| <= REALISTIC && sqrt(MeanSquare(syms)) != 0.0 && b < CODELENGTH
    ensures Abs(Demodulated(sqrt, syms)[b]) < 32000.0
  {
    var rms := sqrt(MeanSquare(syms));
    var sym := Deinterleaved(GP_B, GP_N, Points(syms))[b / 2];
    var lk := Likelihoods(sym, rms, ES_NO, rms);
    ScaledBound(sqrt, syms, b / 2);
    forall j | 0 <= j < QPSK_M ensures -30006.0 <= lk(j) <= 0.0 {
      LikelihoodIsDistance(sym, rms, j);
      DistanceLinear(Scaled(sym, rms), j);
      TowardBound(Scaled(sym, rms), j);
    }
    LlrBound(lk, b % 2, -30006.0);
  }

  /** Whatever is received, no conversion of the decoder overflows, neither when the nodes are set up
      nor in any iteration. */
  lemma ReceiverStaysInRange(code: Code, sqrt: real -> real, syms: seq<real>, k: nat)
    requires Sized(code) && Transposed(code) && code.n == NDATA
    requires IsRoot(sqrt) && CODELENGTH <= |syms| <= REALISTIC && sqrt(MeanSquare(syms)) != 0.0
    ensures var llr := Demodulated(sqrt, syms);
            var c, v := CheckNodes(code), VariableNodes(Phi0, code, llr);
            && (forall i :: 0 <= i < |llr| ==> Fits(Abs(llr[i])))
            && Contained(CAfter(Phi0, c, v, k), VAfter(Phi0, c, v, k), CAfter(Phi0, c, v, k + 1))
            && SameInputs(v, VAfter(Phi0, c, v, k))
  {
    var llr := Demodulated(sqrt, syms);
    forall b | 0 <= b < |llr|
      ensures Abs(llr[b]) < 32000.0
    {
      RatiosBelow(sqrt, syms, b);
    }
    DecoderStaysInRange(code, llr, k);
  }
}
