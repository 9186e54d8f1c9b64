/** The golden-prime interleaver: element i goes to place b * i mod n.  Stated for any b and n. */
module RadeInterleaver {
  import opened Arithmetic
  import opened RadeCode

  function Slot(b: nat, n: nat, i: nat): (r: nat)
    requires n > 0
    ensures r < n
  {
    (b * i) % n
  }

  predicate Divides(d: nat, x: int)
    requires d > 0
  {
    x % d == 0
  }

  ghost predicate Coprime(b: nat, n: nat) {
    forall d: nat :: d > 1 && Divides(d, b) ==> !Divides(d, n)
  }

  // ---------------------------------------------------------------- arithmetic modulo n

  lemma MultipleDivides(d: nat, q: int)
    requires d > 0
    ensures Divides(d, q * d)
  {
    Quotient(q * d, d, q, 0);
  }

  lemma SumDivides(d: nat, x: int, y: int, k: int)
    requires d > 0 && Divides(d, x) && Divides(d, y)
    ensures Divides(d, k * x + y)
  {
    var p, q := x / d, y / d;
    assert x == p * d && y == q * d;
    assert k * x + y == (k * p + q) * d;
    MultipleDivides(d, k * p + q);
  }

  lemma {:induction false} Bezout(b: nat, n: nat) returns (g: nat, x: int, y: int)
    requires n > 0
    ensures g > 0 && Divides(g, b) && Divides(g, n) && b * x + n * y == g
    decreases b
  {
    if b == 0 {
      g, x, y := n, 0, 1;
      MultipleDivides(n, 1);
    } else {
      var x', y';
      g, x', y' := Bezout(n % b, b);
      var q := n / b;
      assert n == q * b + n % b;
      SumDivides(g, b, n % b, q);
      x, y := y' - q * x', x';
      assert b * x + n * y == b * y' + (n - b * q) * x';
      assert n - b * q == n % b;
    }
  }

  lemma Inverse(b: nat, n: nat) returns (x: int, y: int)
    requires n > 0 && Coprime(b, n)
    ensures b * x + n * y == 1
  {
    var g;
    g, x, y := Bezout(b, n);
    assert g == 1;
  }

  lemma SmallMultiple(n: nat, d: int)
    requires 0 < d < n
    ensures !Divides(n, d)
  {
    Quotient(d, n, 0, d);
  }

  lemma SameSlot(b: nat, n: nat, i: nat, j: nat)
    requires n > 0 && Slot(b, n, i) == Slot(b, n, j)
    ensures Divides(n, b * (j - i))
  {
    var p, q := b * i / n, b * j / n;
    assert b * i == p * n + Slot(b, n, i) && b * j == q * n + Slot(b, n, j);
    assert b * (j - i) == b * j - b * i == (q - p) * n;
    MultipleDivides(n, q - p);
  }

  lemma SlotsDiffer(b: nat, n: nat, i: nat, j: nat)
    requires Coprime(b, n) && i < j < n
    ensures Slot(b, n, i) != Slot(b, n, j)
  {
    if Slot(b, n, i) == Slot(b, n, j) {
      SameSlot(b, n, i, j);
      var x, y := Inverse(b, n);
      var d := j - i;
      var q := b * d / n;
      assert b * d == q * n;
      assert d == (b * x + n * y) * d == (b * d) * x + n * (y * d) == (q * x + y * d) * n;
      MultipleDivides(n, q * x + y * d);
      SmallMultiple(n, d);
    }
  }

  lemma SharedDivisorCollides(b: nat, n: nat, d: nat)
    requires n > 0 && d > 1 && Divides(d, b) && Divides(d, n)
    ensures 0 < n / d < n && Slot(b, n, 0) == Slot(b, n, n / d)
  {
    var p, q := b / d, n / d;
    assert b == p * d && n == q * d;
    MulMono(2, d, q);
    assert b * q == p * d * q == p * n;
    Quotient(b * q, n, p, 0);
    Quotient(b * 0, n, 0, 0);
  }

  /** The map is one-to-one exactly when b and n are coprime. */
  lemma OneToOneIffCoprime(b: nat, n: nat)
    requires n > 0
    ensures Coprime(b, n) <==> forall i, j :: 0 <= i < j < n ==> Slot(b, n, i) != Slot(b, n, j)
  {
    if Coprime(b, n) {
      forall i, j | 0 <= i < j < n
        ensures Slot(b, n, i) != Slot(b, n, j)
      {
        SlotsDiffer(b, n, i, j);
      }
    } else {
      var d: nat :| d > 1 && Divides(d, b) && Divides(d, n);
      SharedDivisorCollides(b, n, d);
    }
  }

  /** Every place is filled. */
  lemma EveryPlaceFilled(b: nat, n: nat, j: nat) returns (i: nat)
    requires Coprime(b, n) && j < n
    ensures i < n && Slot(b, n, i) == j
  {
    var x, y := Inverse(b, n);
    i := (x * j) % n;
    var q := (x * j) / n;
    assert x * j == q * n + i;
    assert b * i == b * (x * j) - b * (q * n);
    assert b * (x * j) == (b * x) * j == (1 - n * y) * j == j - (y * j) * n;
    assert b * (q * n) == (b * q) * n;
    assert b * i == (-(y * j) - b * q) * n + j;
    Quotient(b * i, n, -(y * j) - b * q, j);
  }

  // ---------------------------------------------------------------- the two directions

  /** out is input with pair i of bits moved to place Slot(i). */
  predicate Interleaved(b: nat, n: nat, out: seq<bit>, input: seq<bit>) {
    && n > 0 && |out| == |input| == 2 * n
    && forall i :: 0 <= i < n ==>
         && out[2 * Slot(b, n, i)] == input[2 * i]
         && out[2 * Slot(b, n, i) + 1] == input[2 * i + 1]
  }

  function Deinterleaved<T>(b: nat, n: nat, xs: seq<T>): (r: seq<T>)
    requires n > 0 && n <= |xs|
    ensures |r| == n
  {
    seq(n, i requires 0 <= i < n => xs[Slot(b, n, i)])
  }

  type dibit = d: int | 0 <= d < 4

  function Pair(hi: bit, lo: bit): dibit { 2 * (hi as int) + lo }

  method Spread(temp: seq<dibit>, out: array<bit>)
    requires out.Length == 2 * |temp|
    modifies out
    ensures forall k :: 0 <= k < |temp| ==> Pair(out[2 * k], out[2 * k + 1]) == temp[k]
  {
    var i := 0;
    while i < |temp|
      invariant 0 <= i <= |temp|
      invariant forall k :: 0 <= k < i ==> Pair(out[2 * k], out[2 * k + 1]) == temp[k]
    {
      out[2 * i] := temp[i] / 2;
      out[2 * i + 1] := temp[i] % 2;
      i := i + 1;
    }
  }

  /** gp_interleave_bits: pairs are gathered into temp at their places and then spread out. */
  method InterleaveBits(b: nat, n: nat, input: seq<bit>, out: array<bit>)
    requires n > 0 && Coprime(b, n) && |input| == out.Length == 2 * n
    modifies out
    ensures Interleaved(b, n, out[..], input)
  {
    var temp := new dibit[n];
    var i := 0;
    while i < n
      invariant 0 <= i <= n
      invariant forall k :: 0 <= k < i ==> temp[Slot(b, n, k)] == Pair(input[2 * k], input[2 * k + 1])
    {
      OneToOneIffCoprime(b, n);
      temp[Slot(b, n, i)] := Pair(input[2 * i], input[2 * i + 1]);
      i := i + 1;
    }
    Spread(temp[..], out);
  }

  /** gp_deinterleave_comp. */
  method Deinterleave<T>(b: nat, n: nat, input: seq<T>, out: array<T>)
    requires n > 0 && n <= |input| && out.Length == n
    modifies out
    ensures out[..] == Deinterleaved(b, n, input)
  {
    var i := 0;
    while i < n
      invariant 0 <= i <= n
      invariant out[..i] == Deinterleaved(b, n, input)[..i]
    {
      out[i] := input[Slot(b, n, i)];
      assert out[..i + 1] == out[..i] + [out[i]];
      i := i + 1;
    }
  }

  function Pairs(bits: seq<bit>): seq<(bit, bit)> {
    seq(|bits| / 2, i requires 0 <= i < |bits| / 2 => (bits[2 * i], bits[2 * i + 1]))
  }

  /** Interleaving is undone by deinterleaving the pairs, and only one word is the interleaving of
      another: for any coprime b and n. */
  lemma DeinterleaveUndoes(b: nat, n: nat, out: seq<bit>, input: seq<bit>)
    requires Coprime(b, n) && n > 0 && |out| == |input| == 2 * n
    ensures Interleaved(b, n, out, input) <==> Deinterleaved(b, n, Pairs(out)) == Pairs(input)
    ensures Interleaved(b, n, out, input) ==>
              forall other :: Interleaved(b, n, other, input) ==> other == out
  {
    var back := Deinterleaved(b, n, Pairs(out));
    if back == Pairs(input) {
      forall i | 0 <= i < n
        ensures out[2 * Slot(b, n, i)] == input[2 * i] && out[2 * Slot(b, n, i) + 1] == input[2 * i + 1]
      {
        assert back[i] == Pairs(input)[i];
      }
    }
    forall other | Interleaved(b, n, out, input) && Interleaved(b, n, other, input)
      ensures other == out
    {
      forall j | 0 <= j < 2 * n
        ensures other[j] == out[j]
      {
        var i := EveryPlaceFilled(b, n, j / 2);
        assert j == 2 * (j / 2) || j == 2 * (j / 2) + 1;
      }
    }
  }

  // ---------------------------------------------------------------- the actual parameters

  const GP_N := 56
  const GP_B := 37

  lemma GoldenPrimeCoprime()
    ensures Coprime(GP_B, GP_N)
  {
    forall d: nat | d > 1 && Divides(d, GP_B)
      ensures !Divides(d, GP_N)
    {
      if Divides(d, GP_N) {
        // 56 * 2 - 37 * 3 == 1
        SumDivides(d, GP_B, 2 * GP_N, -3);
        SmallMultiple(d, 1);
      }
    }
  }
}
