/** The accumulate LDPC code of the RADE text: its tables, its parity checks, its encoder.
    Everything is stated for tables of any size and contents; RadeTables holds the actual ones. */
module RadeCode {
  import opened Arithmetic
  import opened Bytes

  type bit = b: int | 0 <= b <= 1

  const WEIGHT := 3

  /** A rate one-half code: n information bits, n parity bits.  Both tables are laid out as the
      source lays them out, entry j of line p at p + j * n; 0 means no entry. */
  datatype Code = Code(n: nat, rows: seq<nat>, cols: seq<nat>)

  predicate Sized(code: Code) {
    && code.n > 0 && |code.rows| == WEIGHT * code.n && |code.cols| == WEIGHT * code.n
    && (forall k :: 0 <= k < |code.rows| ==> code.rows[k] <= code.n)
    && (forall k :: 0 <= k < |code.cols| ==> code.cols[k] <= code.n)
  }

  function Entry(table: seq<nat>, n: nat, p: nat, j: nat): nat
    requires |table| == WEIGHT * n && p < n && j < WEIGHT
  {
    MulMono(j, WEIGHT - 1, n);
    table[p + j * n]
  }

  /** The entries of one line that are present, counted from 0. */
  function LineUpTo(table: seq<nat>, n: nat, p: nat, k: nat): seq<nat>
    requires |table| == WEIGHT * n && p < n && k <= WEIGHT
  {
    if k == 0 then []
    else
      LineUpTo(table, n, p, k - 1)
      + (if Entry(table, n, p, k - 1) > 0 then [Entry(table, n, p, k - 1) - 1] else [])
  }

  function Line(table: seq<nat>, n: nat, p: nat): seq<nat>
    requires |table| == WEIGHT * n && p < n
  {
    LineUpTo(table, n, p, WEIGHT)
  }

  /** The variables check p looks at: its line of the row table, and the parity chain. */
  function Neighbours(code: Code, p: nat): seq<nat>
    requires Sized(code) && p < code.n
  {
    Line(code.rows, code.n, p) + (if p == 0 then [code.n] else [code.n + p - 1, code.n + p])
  }

  /** The checks variable i takes part in. */
  function Checks(code: Code, i: nat): seq<nat>
    requires Sized(code) && i < 2 * code.n
  {
    if i < code.n then Line(code.cols, code.n, i)
    else if i == 2 * code.n - 1 then [i - code.n]
    else [i - code.n, i - code.n + 1]
  }

  lemma {:induction false} LineInRange(table: seq<nat>, n: nat, p: nat, k: nat)
    requires |table| == WEIGHT * n && p < n && k <= WEIGHT
    requires forall q :: 0 <= q < |table| ==> table[q] <= n
    ensures |LineUpTo(table, n, p, k)| <= k
    ensures forall q :: 0 <= q < |LineUpTo(table, n, p, k)| ==> LineUpTo(table, n, p, k)[q] < n
  {
    if k > 0 {
      LineInRange(table, n, p, k - 1);
    }
  }

  function BitAt(word: seq<bit>, x: nat): bit { if x < |word| then word[x] else 0 }

  function SumAt(word: seq<bit>, at: seq<nat>): nat {
    if at == [] then 0 else SumAt(word, at[..|at| - 1]) + BitAt(word, at[|at| - 1])
  }

  lemma SumAtSnoc(word: seq<bit>, at: seq<nat>, x: nat)
    ensures SumAt(word, at + [x]) == SumAt(word, at) + BitAt(word, x)
  {
    assert (at + [x])[..|at|] == at;
  }

  lemma NeighboursInRange(code: Code, p: nat)
    requires Sized(code) && p < code.n
    ensures forall k :: 0 <= k < |Neighbours(code, p)| ==> Neighbours(code, p)[k] < 2 * code.n
    ensures |Neighbours(code, p)| <= WEIGHT + 2
  {
    LineInRange(code.rows, code.n, p, WEIGHT);
  }

  predicate Satisfied(code: Code, word: seq<bit>, p: nat)
    requires Sized(code) && |word| == 2 * code.n && p < code.n
  {
    SumAt(word, Neighbours(code, p)) % 2 == 0
  }

  predicate IsCodeword(code: Code, word: seq<bit>)
    requires Sized(code) && |word| == 2 * code.n
  {
    forall p :: 0 <= p < code.n ==> Satisfied(code, word, p)
  }

  // ---------------------------------------------------------------- encoder

  /** The information bits among the first k entries of check p, added up. */
  function LineSum(code: Code, info: seq<bit>, p: nat, k: nat): nat
    requires Sized(code) && p < code.n && k <= WEIGHT
  {
    if k == 0 then 0
    else
      var e := Entry(code.rows, code.n, p, k - 1);
      LineSum(code, info, p, k - 1) + (if e > 0 then BitAt(info, e - 1) else 0)
  }

  /** The parity bit of check p: its information bits and the parity bit before it. */
  function Parity(code: Code, info: seq<bit>, p: nat): bit
    requires Sized(code) && |info| == code.n && p < code.n
  {
    (LineSum(code, info, p, WEIGHT) + (if p == 0 then 0 else Parity(code, info, p - 1))) % 2
  }

  function ParityBits(code: Code, info: seq<bit>): (r: seq<bit>)
    requires Sized(code) && |info| == code.n
    ensures |r| == code.n
  {
    seq(code.n, p requires 0 <= p < code.n => Parity(code, info, p))
  }

  /** The information bits one check adds up. */
  method RowSum(code: Code, ibits: seq<bit>, p: nat) returns (par: nat)
    requires Sized(code) && |ibits| == code.n && p < code.n
    ensures par == LineSum(code, ibits, p, WEIGHT)
  {
    par := 0;
    var i := 0;
    while i < WEIGHT
      invariant 0 <= i <= WEIGHT
      invariant par == LineSum(code, ibits, p, i)
    {
      var ind := Entry(code.rows, code.n, p, i);
      if ind > 0 {
        par := par + ibits[ind - 1];
      }
      i := i + 1;
    }
  }

  lemma ParityNext(code: Code, ibits: seq<bit>, p: nat, prev: bit)
    requires Sized(code) && |ibits| == code.n && p < code.n
    requires prev == if p == 0 then 0 else Parity(code, ibits, p - 1)
    ensures (LineSum(code, ibits, p, WEIGHT) + prev) % 2 == Parity(code, ibits, p) == ParityBits(code, ibits)[p]
  {
  }

  method LdpcEncode(code: Code, ibits: seq<bit>, pbits: array<bit>)
    requires Sized(code) && |ibits| == code.n && pbits.Length == code.n
    modifies pbits
    ensures pbits[..] == ParityBits(code, ibits)
  {
    ghost var bits := ParityBits(code, ibits);
    ParityNext(code, ibits, 0, 0);
    var prev: bit := 0;
    var p := 0;
    while p < code.n
      invariant 0 <= p <= code.n
      invariant prev == if p == 0 then 0 else bits[p - 1]
      invariant forall k :: 0 <= k < p ==> pbits[k] == bits[k]
    {
      var par := RowSum(code, ibits, p);
      ParityNext(code, ibits, p, prev);
      prev := (par + prev) % 2;
      pbits[p] := prev;
      p := p + 1;
    }
  }

  lemma {:induction false} SumAtPrefix(info: seq<bit>, tail: seq<bit>, at: seq<nat>)
    requires forall k :: 0 <= k < |at| ==> at[k] < |info|
    ensures SumAt(info + tail, at) == SumAt(info, at)
  {
    if at != [] {
      SumAtPrefix(info, tail, at[..|at| - 1]);
    }
  }

  lemma {:induction false} LineSumIs(code: Code, info: seq<bit>, p: nat, k: nat)
    requires Sized(code) && p < code.n && k <= WEIGHT
    ensures LineSum(code, info, p, k) == SumAt(info, LineUpTo(code.rows, code.n, p, k))
  {
    if k > 0 {
      LineSumIs(code, info, p, k - 1);
      var line := LineUpTo(code.rows, code.n, p, k - 1);
      var e := Entry(code.rows, code.n, p, k - 1);
      if e > 0 {
        SumAtSnoc(info, line, e - 1);
      } else {
        Unit(line);
      }
    }
  }

  lemma CheckSum(info: seq<bit>, par: seq<bit>, line: seq<nat>, p: nat)
    requires |info| == |par| && p < |par|
    requires forall k :: 0 <= k < |line| ==> line[k] < |info|
    ensures var n := |info|;
            SumAt(info + par, line + (if p == 0 then [n] else [n + p - 1, n + p]))
            == SumAt(info, line) + (if p == 0 then 0 else par[p - 1]) + par[p]
  {
    var word, n := info + par, |info|;
    SumAtPrefix(info, par, line);
    assert BitAt(word, n + p) == par[p];
    if p == 0 {
      SumAtSnoc(word, line, n);
    } else {
      assert BitAt(word, n + p - 1) == par[p - 1];
      SumAtSnoc(word, line, n + p - 1);
      SumAtSnoc(word, line + [n + p - 1], n + p);
      assert line + [n + p - 1, n + p] == (line + [n + p - 1]) + [n + p];
    }
  }

  /** A check on a word, spelled out: the information bits of its line and the parity chain. */
  lemma SatisfiedMeans(code: Code, info: seq<bit>, par: seq<bit>, p: nat)
    requires Sized(code) && |info| == |par| == code.n && p < code.n
    ensures Satisfied(code, info + par, p) <==>
            (LineSum(code, info, p, WEIGHT) + (if p == 0 then 0 else par[p - 1]) + par[p]) % 2 == 0
  {
    LineInRange(code.rows, code.n, p, WEIGHT);
    LineSumIs(code, info, p, WEIGHT);
    CheckSum(info, par, Line(code.rows, code.n, p), p);
  }

  lemma {:induction false} ParityForced(code: Code, info: seq<bit>, par: seq<bit>, p: nat)
    requires Sized(code) && |info| == |par| == code.n && p < code.n
    requires IsCodeword(code, info + par)
    ensures par[p] == Parity(code, info, p)
  {
    assert Satisfied(code, info + par, p);
    SatisfiedMeans(code, info, par, p);
    if p > 0 {
      ParityForced(code, info, par, p - 1);
    }
  }

  lemma ParitySatisfies(code: Code, info: seq<bit>, par: seq<bit>, p: nat)
    requires Sized(code) && |info| == |par| == code.n && p < code.n
    requires par[p] == Parity(code, info, p) && (p > 0 ==> par[p - 1] == Parity(code, info, p - 1))
    ensures Satisfied(code, info + par, p)
  {
    SatisfiedMeans(code, info, par, p);
  }

  /** The encoder's parity bits satisfy every check, the first one included, and no others do:
      for every information word and whatever the row table. */
  lemma EncodedIffCodeword(code: Code, info: seq<bit>, par: seq<bit>)
    requires Sized(code) && |info| == |par| == code.n
    ensures IsCodeword(code, info + par) <==> par == ParityBits(code, info)
  {
    var bits := ParityBits(code, info);
    assert forall p :: 0 <= p < code.n ==> bits[p] == Parity(code, info, p);
    if IsCodeword(code, info + par) {
      forall p | 0 <= p < code.n
        ensures par[p] == bits[p]
      {
        ParityForced(code, info, par, p);
      }
    }
    if par == bits {
      forall p | 0 <= p < code.n
        ensures Satisfied(code, info + par, p)
      {
        ParitySatisfies(code, info, par, p);
      }
    }
  }
}
