/** The parts of QString the other modules rely on: UTF-16 units, blanks, Latin-1, decimal numbers and
    the place markers of arg(). */
module QtText {
  import opened Bytes

  /** One UTF-16 unit. */
  type QChar = c: int | 0 <= c < 0x1_0000

  // ---------------------------------------------------------------- blanks

  /** QChar::isSpace. */
  predicate IsSpace(c: int) {
    9 <= c <= 13 || c == 0x20 || c == 0x85 || c == 0xA0 || c == 0x1680 || 0x2000 <= c <= 0x200A
    || c == 0x2028 || c == 0x2029 || c == 0x202F || c == 0x205F || c == 0x3000
  }

  function TrimLeft(s: seq<int>): seq<int> { if s != [] && IsSpace(s[0]) then TrimLeft(s[1..]) else s }

  function TrimRight(s: seq<int>): seq<int> {
    if s != [] && IsSpace(s[|s| - 1]) then TrimRight(s[..|s| - 1]) else s
  }

  /** QString::trimmed. */
  function Trimmed(s: seq<int>): seq<int> { TrimRight(TrimLeft(s)) }

  /** What is trimmed is the stretch from the first to the last character that is not blank. */
  predicate Spans(s: seq<int>, lo: nat, hi: nat) {
    && lo <= hi <= |s| && (forall k :: 0 <= k < |s| && (k < lo || hi <= k) ==> IsSpace(s[k]))
    && (lo < hi ==> !IsSpace(s[lo]) && !IsSpace(s[hi - 1]))
  }

  lemma {:induction false} LeftSpan(s: seq<int>) returns (lo: nat)
    ensures lo <= |s| && TrimLeft(s) == s[lo..] && (forall k :: 0 <= k < lo ==> IsSpace(s[k]))
    ensures lo < |s| ==> !IsSpace(s[lo])
  {
    lo := 0;
    if s != [] && IsSpace(s[0]) {
      var rest := LeftSpan(s[1..]);
      lo := rest + 1;
      assert forall k :: 1 <= k < lo ==> s[k] == s[1..][k - 1];
    }
  }

  lemma {:induction false} RightSpan(s: seq<int>) returns (hi: nat)
    ensures hi <= |s| && TrimRight(s) == s[..hi] && (forall k :: hi <= k < |s| ==> IsSpace(s[k]))
    ensures hi > 0 ==> !IsSpace(s[hi - 1])
  {
    hi := |s|;
    if s != [] && IsSpace(s[|s| - 1]) {
      hi := RightSpan(s[..|s| - 1]);
    }
  }

  lemma Span(s: seq<int>) returns (lo: nat, hi: nat)
    ensures Spans(s, lo, hi) && Trimmed(s) == s[lo..hi]
  {
    lo := LeftSpan(s);
    var n := RightSpan(s[lo..]);
    hi := lo + n;
    assert forall k :: lo <= k < |s| ==> s[k] == s[lo..][k - lo];
  }

  // ---------------------------------------------------------------- Latin-1

  const QUESTION_MARK: byte := 63

  function Latin1(c: QChar): byte { if c > 0xFF then QUESTION_MARK else c }

  /** QString::toLatin1. */
  function ToLatin1(s: seq<QChar>): (r: seq<byte>)
    ensures |r| == |s| && forall i :: 0 <= i < |s| ==> r[i] == Latin1(s[i])
  {
    seq(|s|, i requires 0 <= i < |s| => Latin1(s[i]))
  }

  predicate AllLatin1(s: seq<QChar>) { forall i :: 0 <= i < |s| ==> s[i] <= 0xFF }

  /** A text comes back from Latin-1, trimmed, as it was exactly when all its characters exist there. */
  lemma TrimmedLatin1Iff(s: seq<QChar>)
    ensures Trimmed(ToLatin1(s)) == Trimmed(s) <==> AllLatin1(s)
  {
    var u := ToLatin1(s);
    if AllLatin1(s) {
      assert forall i :: 0 <= i < |s| ==> u[i] == s[i];
      assert u == s;
    } else {
      var k :| 0 <= k < |s| && s[k] > 0xFF;
      var i, m := Span(u);
      var j, n := Span(s);
      assert u[k] == QUESTION_MARK && i <= k < m;
      if j < n {
        assert u[j] == Latin1(s[j]) && u[n - 1] == Latin1(s[n - 1]);
        assert i <= j && n <= m;
        assert |Trimmed(u)| == m - i && |Trimmed(s)| == n - j;
        if i == j && m == n {
          assert Trimmed(u)[k - i] == u[k] && Trimmed(s)[k - i] == s[k];
        }
      }
    }
  }

  // ---------------------------------------------------------------- numbers

  function Digit(d: int): byte
    requires 0 <= d <= 9
  {
    48 + d
  }

  predicate IsDigit(c: int) { 48 <= c <= 57 }

  /** The decimal digits of n, most significant first (QString::number). */
  function Decimal(n: nat): (r: seq<byte>)
    ensures |r| >= 1 && forall i :: 0 <= i < |r| ==> IsDigit(r[i])
  {
    if n < 10 then [Digit(n)] else Decimal(n / 10) + [Digit(n % 10)]
  }

  /** A number in a field of this width, filled with zeros. */
  function Padded(n: nat, width: nat): seq<QChar> {
    var s := Decimal(n);
    (if |s| < width then seq(width - |s|, _ => Digit(0)) else []) + s
  }

  lemma Padded2(n: nat)
    requires n < 100
    ensures Padded(n, 2) == [Digit(n / 10), Digit(n % 10)]
  {
    if n < 10 {
      assert seq(1, _ => Digit(0)) == [Digit(0)];
    } else {
      assert Decimal(n / 10) == [Digit(n / 10)];
    }
  }

  lemma Padded3(n: nat)
    requires n < 1000
    ensures Padded(n, 3) == [Digit(n / 100), Digit(n / 10 % 10), Digit(n % 10)]
  {
    if n < 10 {
      assert seq(2, _ => Digit(0)) == [Digit(0), Digit(0)];
    } else if n < 100 {
      assert seq(1, _ => Digit(0)) == [Digit(0)];
      assert Decimal(n) == [Digit(n / 10), Digit(n % 10)];
    } else {
      assert Decimal(n / 10) == Decimal(n / 100) + [Digit(n / 10 % 10)];
    }
  }

  // ---------------------------------------------------------------- place markers

  const PERCENT: QChar := 37

  const LOCALE: QChar := 76

  /** Where the digits of a marker at the head of s begin, if there is one: after % or %L. */
  function DigitsAt(s: seq<QChar>): (i: nat)
    ensures i < |s| || i == 0
  {
    if |s| >= 2 && s[0] == PERCENT && IsDigit(s[1]) then 1
    else if |s| >= 3 && s[0] == PERCENT && s[1] == LOCALE && IsDigit(s[2]) then 2
    else 0
  }

  /** The length of the marker at the head of s; 0 when there is none. */
  function MarkerLength(s: seq<QChar>): (n: nat)
    ensures n <= |s| && (n == 0 <==> DigitsAt(s) == 0)
  {
    var i := DigitsAt(s);
    if i == 0 then 0 else if i + 1 < |s| && IsDigit(s[i + 1]) then i + 2 else i + 1
  }

  function MarkerNumber(s: seq<QChar>): nat
    requires MarkerLength(s) > 0
  {
    var i := DigitsAt(s);
    if MarkerLength(s) == i + 2 then 10 * (s[i] - 48) + (s[i + 1] - 48) else s[i] - 48
  }

  const NO_MARKER := 100

  function Smaller(a: nat, b: nat): nat { if a <= b then a else b }

  /** The lowest number of a marker. */
  function Lowest(s: seq<QChar>): nat
    decreases |s|
  {
    if s == [] then NO_MARKER
    else if MarkerLength(s) == 0 then Lowest(s[1..])
    else Smaller(MarkerNumber(s), Lowest(s[MarkerLength(s)..]))
  }

  /** Every marker with this number replaced. */
  function Fill(s: seq<QChar>, n: nat, a: seq<QChar>): seq<QChar>
    decreases |s|
  {
    if s == [] then []
    else
      var len := MarkerLength(s);
      if len == 0 then [s[0]] + Fill(s[1..], n, a)
      else (if MarkerNumber(s) == n then a else s[..len]) + Fill(s[len..], n, a)
  }

  /** QString::arg: what was inserted before is searched for markers too. */
  function Arg(s: seq<QChar>, a: seq<QChar>): seq<QChar> {
    if Lowest(s) == NO_MARKER then s else Fill(s, Lowest(s), a)
  }

  lemma {:induction false} FillAbsent(s: seq<QChar>, n: nat, a: seq<QChar>)
    requires n < Lowest(s)
    ensures Fill(s, n, a) == s
    decreases |s|
  {
    if s != [] {
      var len := MarkerLength(s);
      FillAbsent(s[if len == 0 then 1 else len..], n, a);
    }
  }

  /** No marker starts in a text without per cent signs. */
  lemma {:induction false} PlainFirst(p: seq<QChar>, s: seq<QChar>, n: nat, a: seq<QChar>)
    requires PERCENT !in p
    ensures Lowest(p + s) == Lowest(s) && Fill(p + s, n, a) == p + Fill(s, n, a)
  {
    if p == [] {
      assert p + s == s;
    } else {
      assert (p + s)[1..] == p[1..] + s && (p + s)[0] == p[0];
      PlainFirst(p[1..], s, n, a);
      Assoc([p[0]], p[1..], Fill(s, n, a));
    }
  }

  lemma ArgPlain(p: seq<QChar>, s: seq<QChar>, a: seq<QChar>)
    requires PERCENT !in p
    ensures Arg(p + s, a) == p + Arg(s, a)
  {
    PlainFirst(p, s, Lowest(s), a);
  }

  /** A text that no digit of a marker before it can run into. */
  predicate Separate(t: seq<QChar>) { t == [] || !IsDigit(t[0]) }

  function Marker(k: nat): seq<QChar>
    requires k <= 9
  {
    [PERCENT, Digit(k)]
  }

  lemma MarkerFirst(k: nat, t: seq<QChar>, n: nat, a: seq<QChar>)
    requires k <= 9 && Separate(t)
    ensures Lowest(Marker(k) + t) == Smaller(k, Lowest(t))
    ensures Fill(Marker(k) + t, n, a) == (if n == k then a else Marker(k)) + Fill(t, n, a)
  {
    var s := Marker(k) + t;
    assert s[0] == PERCENT && s[1] == Digit(k) && s[2..] == t && s[..2] == Marker(k);
    assert MarkerLength(s) == 2 && MarkerNumber(s) == k;
  }

  lemma WideMarkerFirst(d: nat, e: nat, t: seq<QChar>, n: nat, a: seq<QChar>)
    requires d <= 9 && e <= 9
    ensures Lowest([PERCENT, Digit(d), Digit(e)] + t) == Smaller(10 * d + e, Lowest(t))
    ensures Fill([PERCENT, Digit(d), Digit(e)] + t, n, a)
         == (if n == 10 * d + e then a else [PERCENT, Digit(d), Digit(e)]) + Fill(t, n, a)
  {
    var s := [PERCENT, Digit(d), Digit(e)] + t;
    assert s[0] == PERCENT && s[1] == Digit(d) && s[2] == Digit(e) && s[3..] == t;
    assert s[..3] == [PERCENT, Digit(d), Digit(e)];
    assert MarkerLength(s) == 3 && MarkerNumber(s) == 10 * d + e;
  }

  /** A per cent sign before another one is text. */
  lemma PercentFirst(t: seq<QChar>, n: nat, a: seq<QChar>)
    requires t != [] && t[0] == PERCENT
    ensures Lowest([PERCENT] + t) == Lowest(t) && Fill([PERCENT] + t, n, a) == [PERCENT] + Fill(t, n, a)
  {
    var s := [PERCENT] + t;
    assert s[1] == PERCENT && s[1..] == t && s[0] == PERCENT;
  }

  /** The usual step of a chain of arg(): the lowest marker comes first. */
  lemma ArgNext(p: seq<QChar>, k: nat, t: seq<QChar>, a: seq<QChar>)
    requires PERCENT !in p && k <= 9 && Separate(t) && k < Lowest(t)
    ensures Arg(p + (Marker(k) + t), a) == (p + a) + t
  {
    ArgPlain(p, Marker(k) + t, a);
    MarkerFirst(k, t, k, a);
    FillAbsent(t, k, a);
    Assoc(p, a, t);
  }
}
