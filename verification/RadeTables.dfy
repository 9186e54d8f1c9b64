/** The tables of the HRA_56_56 code, a line at a time, and the facts about them that the graph
    and decoder theorems ask for. */
module RadeTables {
  import opened RadeCode
  import opened RadeGraph

  const N := 56

  datatype Triple = Triple(a: nat, b: nat, c: nat) {
    function At(j: int): nat { if j == 0 then a else if j == 1 then b else c }

    predicate Has(x: int) { x == a || x == b || x == c }

    predicate Proper() { 1 <= a <= N && 1 <= b <= N && 1 <= c <= N && a != b && a != c && b != c }
  }

  /** Line p of HRA_56_56_H_rows: entries p, p + 56 and p + 112. */
  function Row(p: int): Triple {
    if p < 8 then
      match p
      case 0 => Triple(4, 14, 41)
      case 1 => Triple(33, 46, 55)
      case 2 => Triple(22, 39, 47)
      case 3 => Triple(2, 27, 44)
      case 4 => Triple(7, 43, 56)
      case 5 => Triple(12, 22, 46)
      case 6 => Triple(15, 19, 20)
      case 7 => Triple(41, 45, 55)
      case _ => Triple(0, 0, 0)
    else if p < 16 then
      match p
      case 8 => Triple(6, 16, 21)
      case 9 => Triple(2, 23, 40)
      case 10 => Triple(8, 31, 37)
      case 11 => Triple(4, 52, 53)
      case 12 => Triple(1, 3, 13)
      case 13 => Triple(7, 8, 32)
      case 14 => Triple(20, 51, 52)
      case 15 => Triple(10, 13, 22)
      case _ => Triple(0, 0, 0)
    else if p < 24 then
      match p
      case 16 => Triple(2, 31, 32)
      case 17 => Triple(1, 11, 24)
      case 18 => Triple(28, 31, 44)
      case 19 => Triple(7, 36, 42)
      case 20 => Triple(3, 11, 49)
      case 21 => Triple(25, 28, 38)
      case 22 => Triple(18, 30, 48)
      case 23 => Triple(19, 21, 24)
      case _ => Triple(0, 0, 0)
    else if p < 32 then
      match p
      case 24 => Triple(17, 38, 56)
      case 25 => Triple(15, 26, 48)
      case 26 => Triple(8, 42, 50)
      case 27 => Triple(13, 29, 39)
      case 28 => Triple(9, 23, 26)
      case 29 => Triple(12, 33, 50)
      case 30 => Triple(39, 45, 54)
      case 31 => Triple(6, 19, 26)
      case _ => Triple(0, 0, 0)
    else if p < 40 then
      match p
      case 32 => Triple(17, 28, 37)
      case 33 => Triple(32, 40, 56)
      case 34 => Triple(3, 10, 14)
      case 35 => Triple(6, 23, 27)
      case 36 => Triple(10, 41, 46)
      case 37 => Triple(18, 25, 44)
      case 38 => Triple(4, 29, 45)
      case 39 => Triple(34, 36, 43)
      case _ => Triple(0, 0, 0)
    else if p < 48 then
      match p
      case 40 => Triple(1, 29, 53)
      case 41 => Triple(14, 49, 52)
      case 42 => Triple(9, 38, 40)
      case 43 => Triple(5, 11, 21)
      case 44 => Triple(15, 30, 51)
      case 45 => Triple(12, 42, 47)
      case 46 => Triple(5, 16, 30)
      case 47 => Triple(35, 37, 50)
      case _ => Triple(0, 0, 0)
    else if p < 56 then
      match p
      case 48 => Triple(5, 49, 51)
      case 49 => Triple(17, 35, 43)
      case 50 => Triple(16, 18, 27)
      case 51 => Triple(36, 47, 54)
      case 52 => Triple(20, 24, 53)
      case 53 => Triple(9, 25, 48)
      case 54 => Triple(34, 54, 55)
      case 55 => Triple(33, 34, 35)
      case _ => Triple(0, 0, 0)
    else Triple(0, 0, 0)
  }

  /** Line d of HRA_56_56_H_cols. */
  function Col(p: int): Triple {
    if p < 8 then
      match p
      case 0 => Triple(13, 18, 41)
      case 1 => Triple(4, 10, 17)
      case 2 => Triple(13, 21, 35)
      case 3 => Triple(1, 12, 39)
      case 4 => Triple(44, 47, 49)
      case 5 => Triple(9, 32, 36)
      case 6 => Triple(5, 14, 20)
      case 7 => Triple(11, 14, 27)
      case _ => Triple(0, 0, 0)
    else if p < 16 then
      match p
      case 8 => Triple(29, 43, 54)
      case 9 => Triple(16, 35, 37)
      case 10 => Triple(18, 21, 44)
      case 11 => Triple(6, 30, 46)
      case 12 => Triple(13, 16, 28)
      case 13 => Triple(1, 35, 42)
      case 14 => Triple(7, 26, 45)
      case 15 => Triple(9, 47, 51)
      case _ => Triple(0, 0, 0)
    else if p < 24 then
      match p
      case 16 => Triple(25, 33, 50)
      case 17 => Triple(23, 38, 51)
      case 18 => Triple(7, 24, 32)
      case 19 => Triple(7, 15, 53)
      case 20 => Triple(9, 24, 44)
      case 21 => Triple(3, 6, 16)
      case 22 => Triple(10, 29, 36)
      case 23 => Triple(18, 24, 53)
      case _ => Triple(0, 0, 0)
    else if p < 32 then
      match p
      case 24 => Triple(22, 38, 54)
      case 25 => Triple(26, 29, 32)
      case 26 => Triple(4, 36, 51)
      case 27 => Triple(19, 22, 33)
      case 28 => Triple(28, 39, 41)
      case 29 => Triple(23, 45, 47)
      case 30 => Triple(11, 17, 19)
      case 31 => Triple(14, 17, 34)
      case _ => Triple(0, 0, 0)
    else if p < 40 then
      match p
      case 32 => Triple(2, 30, 56)
      case 33 => Triple(40, 55, 56)
      case 34 => Triple(48, 50, 56)
      case 35 => Triple(20, 40, 52)
      case 36 => Triple(11, 33, 48)
      case 37 => Triple(22, 25, 43)
      case 38 => Triple(3, 28, 31)
      case 39 => Triple(10, 34, 43)
      case _ => Triple(0, 0, 0)
    else if p < 48 then
      match p
      case 40 => Triple(1, 8, 37)
      case 41 => Triple(20, 27, 46)
      case 42 => Triple(5, 40, 50)
      case 43 => Triple(4, 19, 38)
      case 44 => Triple(8, 31, 39)
      case 45 => Triple(2, 6, 37)
      case 46 => Triple(3, 46, 52)
      case 47 => Triple(23, 26, 54)
      case _ => Triple(0, 0, 0)
    else if p < 56 then
      match p
      case 48 => Triple(21, 42, 49)
      case 49 => Triple(27, 30, 48)
      case 50 => Triple(15, 45, 49)
      case 51 => Triple(12, 15, 42)
      case 52 => Triple(12, 41, 53)
      case 53 => Triple(31, 52, 55)
      case 54 => Triple(2, 8, 55)
      case 55 => Triple(5, 25, 34)
      case _ => Triple(0, 0, 0)
    else Triple(0, 0, 0)
  }

  /** A flat table from its lines, laid out as in the source. */
  function Flat(line: int -> Triple): seq<nat> {
    seq<nat>(WEIGHT * N, k requires 0 <= k < WEIGHT * N => line(k % N).At(k / N))
  }

  const HRA := Code(N, Flat(Row), Flat(Col))

  /** Line p is in order, and every line it names in the other table names it. */
  predicate Answered(line: int -> Triple, other: int -> Triple, p: int) {
    var t := line(p);
    t.Proper() && other(t.a - 1).Has(p + 1) && other(t.b - 1).Has(p + 1) && other(t.c - 1).Has(p + 1)
  }

  predicate AllAnswered(line: int -> Triple, other: int -> Triple, p: int, end: int)
    decreases end - p
  {
    p >= end || (Answered(line, other, p) && AllAnswered(line, other, p + 1, end))
  }

  // Eight lines of both tables at a time keep each comparison small.

  lemma Piece0(k: int)
    requires k == 0
    ensures AllAnswered(Row, Col, 8 * k, 8 * k + 8) && AllAnswered(Col, Row, 8 * k, 8 * k + 8)
  {
    assert AllAnswered(Row, Col, 0, 8) && AllAnswered(Col, Row, 0, 8);
  }

  lemma Piece1(k: int)
    requires k == 1
    ensures AllAnswered(Row, Col, 8 * k, 8 * k + 8) && AllAnswered(Col, Row, 8 * k, 8 * k + 8)
  {
    assert AllAnswered(Row, Col, 8, 16) && AllAnswered(Col, Row, 8, 16);
  }

  lemma Piece2(k: int)
    requires k == 2
    ensures AllAnswered(Row, Col, 8 * k, 8 * k + 8) && AllAnswered(Col, Row, 8 * k, 8 * k + 8)
  {
    assert AllAnswered(Row, Col, 16, 24) && AllAnswered(Col, Row, 16, 24);
  }

  lemma Piece3(k: int)
    requires k == 3
    ensures AllAnswered(Row, Col, 8 * k, 8 * k + 8) && AllAnswered(Col, Row, 8 * k, 8 * k + 8)
  {
    assert AllAnswered(Row, Col, 24, 32) && AllAnswered(Col, Row, 24, 32);
  }

  lemma Piece4(k: int)
    requires k == 4
    ensures AllAnswered(Row, Col, 8 * k, 8 * k + 8) && AllAnswered(Col, Row, 8 * k, 8 * k + 8)
  {
    assert AllAnswered(Row, Col, 32, 40) && AllAnswered(Col, Row, 32, 40);
  }

  lemma Piece5(k: int)
    requires k == 5
    ensures AllAnswered(Row, Col, 8 * k, 8 * k + 8) && AllAnswered(Col, Row, 8 * k, 8 * k + 8)
  {
    assert AllAnswered(Row, Col, 40, 48) && AllAnswered(Col, Row, 40, 48);
  }

  lemma Piece6(k: int)
    requires k == 6
    ensures AllAnswered(Row, Col, 8 * k, 8 * k + 8) && AllAnswered(Col, Row, 8 * k, 8 * k + 8)
  {
    assert AllAnswered(Row, Col, 48, 56) && AllAnswered(Col, Row, 48, 56);
  }

  lemma {:induction false} AnsweredIn(line: int -> Triple, other: int -> Triple, p: int, end: int, q: int)
    requires AllAnswered(line, other, p, end) && p <= q < end
    ensures Answered(line, other, q)
    decreases end - p
  {
    if p < q {
      AnsweredIn(line, other, p + 1, end, q);
    }
  }

  /** Every line of either table, by pieces of eight. */
  ghost predicate Mutual(line: int -> Triple, other: int -> Triple) {
    forall k :: 0 <= k < 7 ==> AllAnswered(line, other, 8 * k, 8 * k + 8)
  }

  lemma TablesMutual()
    ensures Mutual(Row, Col) && Mutual(Col, Row)
  {
    forall k | 0 <= k < 7
      ensures AllAnswered(Row, Col, 8 * k, 8 * k + 8) && AllAnswered(Col, Row, 8 * k, 8 * k + 8)
    {
      match k {
        case 0 => Piece0(k);
        case 1 => Piece1(k);
        case 2 => Piece2(k);
        case 3 => Piece3(k);
        case 4 => Piece4(k);
        case 5 => Piece5(k);
        case _ => Piece6(k);
      }
    }
  }

  lemma MutualAt(line: int -> Triple, other: int -> Triple, p: int)
    requires Mutual(line, other) && 0 <= p < N
    ensures Answered(line, other, p)
  {
    assert AllAnswered(line, other, 8 * (p / 8), 8 * (p / 8) + 8);
    AnsweredIn(line, other, 8 * (p / 8), 8 * (p / 8) + 8, p);
  }

  lemma FlatEntry(line: int -> Triple, p: nat, j: nat)
    requires p < N && j < WEIGHT
    ensures Entry(Flat(line), N, p, j) == line(p).At(j)
  {
    assert (p + j * N) % N == p && (p + j * N) / N == j;
  }

  lemma FlatLine(line: int -> Triple, p: nat)
    requires p < N && line(p).Proper()
    ensures Line(Flat(line), N, p) == [line(p).a - 1, line(p).b - 1, line(p).c - 1]
    ensures PackedLine(Flat(line), N, p)
  {
    var t, table := line(p), Flat(line);
    FlatEntry(line, p, 0);
    FlatEntry(line, p, 1);
    FlatEntry(line, p, 2);
    assert LineUpTo(table, N, p, 0) == [];
    assert LineUpTo(table, N, p, 1) == [t.a - 1];
    assert LineUpTo(table, N, p, 2) == [t.a - 1, t.b - 1];
  }

  lemma FlatTransposed(line: int -> Triple, other: int -> Triple, p: nat, d: nat)
    requires Mutual(line, other) && Mutual(other, line) && p < N && d < N
    ensures d in Line(Flat(line), N, p) <==> p in Line(Flat(other), N, d)
  {
    MutualAt(line, other, p);
    MutualAt(other, line, d);
    FlatLine(line, p);
    FlatLine(other, d);
  }

  lemma FlatFits(line: int -> Triple, other: int -> Triple)
    requires Mutual(line, other) && Mutual(other, line)
    ensures var code := Code(N, Flat(line), Flat(other));
            Sized(code) && Packed(code) && Transposed(code)
  {
    forall k | 0 <= k < WEIGHT * N
      ensures Flat(line)[k] <= N && Flat(other)[k] <= N
    {
      MutualAt(line, other, k % N);
      MutualAt(other, line, k % N);
    }
    forall p | 0 <= p < N
      ensures PackedLine(Flat(line), N, p) && PackedLine(Flat(other), N, p)
      ensures Distinct(Line(Flat(line), N, p)) && Distinct(Line(Flat(other), N, p))
    {
      MutualAt(line, other, p);
      MutualAt(other, line, p);
      FlatLine(line, p);
      FlatLine(other, p);
    }
    forall p, d | 0 <= p < N && 0 <= d < N
      ensures d in Line(Flat(line), N, p) <==> p in Line(Flat(other), N, d)
    {
      FlatTransposed(line, other, p, d);
    }
    MutualAt(line, other, 0);
    FlatEntry(line, 0, 0);
  }

  /** The actual tables: entries in range and at the front of their lines, and each the transpose
      of the other. */
  lemma TablesFit()
    ensures Sized(HRA) && Packed(HRA) && Transposed(HRA)
  {
    TablesMutual();
    FlatFits(Row, Col);
  }
}
