/** APRS position reports (APRS Protocol Reference 1.0.1, chapters 6 and 8): built from degrees and
    parsed back.  A report is a byte string, read as Latin-1; what the user gives is UTF-16. */
module AprsPosition {
  import opened Bytes
  import opened QtText

  // ---------------------------------------------------------------- angles

  /** Degrees, minutes and hundredths of a minute. */
  datatype Angle = Angle(deg: int, min: int, frac: int)

  /** qRound of a number that is not negative. */
  function Round(x: real): int { (x + 0.5).Floor }

  function Carried(a: Angle): Angle {
    var b := if a.frac >= 100 then Angle(a.deg, a.min + 1, 0) else a;
    if b.min >= 60 then Angle(b.deg + 1, 0, b.frac) else b
  }

  /** An angle that is not negative, to the nearest hundredth of a minute. */
  function ToAngle(x: real): Angle {
    var deg := x.Floor;
    var minutes := (x - deg as real) * 60.0;
    Carried(Angle(deg, minutes.Floor, Round((minutes - minutes.Floor as real) * 100.0)))
  }

  function ToDegrees(a: Angle): real { a.deg as real + (a.min as real + a.frac as real / 100.0) / 60.0 }

  predicate InRange(a: Angle, most: int) { 0 <= a.deg <= most && 0 <= a.min < 60 && 0 <= a.frac < 100 }

  function Magnitude(x: real): real { if x < 0.0 then -x else x }

  lemma Rounded(x: real)
    requires 0.0 <= x < 100.0
    ensures 0 <= Round(x) <= 100 && -0.5 <= x - Round(x) as real <= 0.5
  {
  }

  lemma CarryKeepsValue(a: Angle)
    requires 0 <= a.deg && 0 <= a.min < 60 && 0 <= a.frac <= 100
    ensures ToDegrees(Carried(a)) == ToDegrees(a) && 0 <= Carried(a).deg
    ensures 0 <= Carried(a).min < 60 && 0 <= Carried(a).frac < 100
  {
  }

  lemma NoHigher(a: Angle, x: real, most: int)
    requires 0 <= a.deg && 0 <= a.min < 60 && 0 <= a.frac < 100
    requires x <= most as real && ToDegrees(a) - x <= 1.0 / 12000.0
    ensures a.deg <= most
  {
    assert ToDegrees(a) >= a.deg as real;
  }

  /** Fields come out in range, carries included, and off by at most half a hundredth of a minute. */
  lemma RoundingError(x: real, most: int)
    requires 0.0 <= x <= most as real
    ensures InRange(ToAngle(x), most)
    ensures Magnitude(ToDegrees(ToAngle(x)) - x) <= 1.0 / 12000.0
  {
    var deg := x.Floor;
    var minutes := (x - deg as real) * 60.0;
    var part := (minutes - minutes.Floor as real) * 100.0;
    Rounded(part);
    var a := Angle(deg, minutes.Floor, Round(part));
    CarryKeepsValue(a);
    assert ToDegrees(a) - x == (Round(part) as real - part) / 6000.0;
    NoHigher(ToAngle(x), x, most);
  }

  /** An angle read back is the angle written: no drift however often. */
  lemma AngleStable(a: Angle)
    requires 0 <= a.deg && 0 <= a.min < 60 && 0 <= a.frac < 100
    ensures ToAngle(ToDegrees(a)) == a
  {
    var x := ToDegrees(a);
    var hundredths := (a.min * 100 + a.frac) as real;
    assert x == a.deg as real + hundredths / 6000.0;
    assert x.Floor == a.deg;
    var minutes := (x - a.deg as real) * 60.0;
    assert minutes == a.min as real + a.frac as real / 100.0;
    assert minutes.Floor == a.min;
    assert (minutes - a.min as real) * 100.0 == a.frac as real;
  }

  // ---------------------------------------------------------------- building

  const COMMENT_MAX := 43

  const DOT: QChar := '.' as int

  /** The fields of a report, before anything is encoded. */
  datatype Fields = Fields(lat: Angle, south: bool, table: QChar, lon: Angle, west: bool, code: QChar)

  predicate OnEarth(r: Fields) { InRange(r.lat, 90) && InRange(r.lon, 180) }

  function LatHem(south: bool): QChar { if south then 'S' as int else 'N' as int }

  function LonHem(west: bool): QChar { if west then 'W' as int else 'E' as int }

  // The end of "!%1%2.%3%4%5%6%7.%8%9%10" from each marker on.
  const FROM_10: seq<QChar> := [PERCENT, Digit(1), Digit(0)]
  const FROM_9 := Marker(9) + FROM_10
  const FROM_8 := Marker(8) + FROM_9
  const FROM_7 := Marker(7) + ([DOT] + FROM_8)
  const FROM_6 := Marker(6) + FROM_7
  const FROM_5 := Marker(5) + FROM_6
  const FROM_4 := Marker(4) + FROM_5
  const FROM_3 := Marker(3) + FROM_4
  const FROM_2 := Marker(2) + ([DOT] + FROM_3)
  const FROM_1 := Marker(1) + FROM_2

  const BANG: seq<QChar> := ['!' as int]

  /** The chain of arg() of buildPositionInfo: the latitude, and what follows the symbol table. */
  function LatChain(deg: seq<QChar>, min: seq<QChar>, frac: seq<QChar>, hem: QChar): seq<QChar> {
    Arg(Arg(Arg(Arg(BANG + FROM_1, deg), min), frac), [hem])
  }

  /** From the longitude's minutes on. */
  function Rest(s: seq<QChar>, min: seq<QChar>, frac: seq<QChar>, hem: QChar, code: QChar): seq<QChar> {
    Arg(Arg(Arg(Arg(s, min), frac), [hem]), [code])
  }

  function LonChain(s: seq<QChar>, deg: seq<QChar>, min: seq<QChar>, frac: seq<QChar>, hem: QChar,
                    code: QChar): seq<QChar> {
    Rest(Arg(s, deg), min, frac, hem, code)
  }

  function Filled(r: Fields): seq<QChar>
    requires OnEarth(r)
  {
    var lat := LatChain(Padded(r.lat.deg, 2), Padded(r.lat.min, 2), Padded(r.lat.frac, 2), LatHem(r.south));
    LonChain(Arg(lat, [r.table]),
             Padded(r.lon.deg, 3), Padded(r.lon.min, 2), Padded(r.lon.frac, 2), LonHem(r.west), r.code)
  }

  /** What the chain is meant to give. */
  function LatField(a: Angle, south: bool): seq<QChar>
    requires InRange(a, 90)
  {
    [Digit(a.deg / 10), Digit(a.deg % 10), Digit(a.min / 10), Digit(a.min % 10), DOT,
     Digit(a.frac / 10), Digit(a.frac % 10), LatHem(south)]
  }

  function LonField(a: Angle, west: bool): seq<QChar>
    requires InRange(a, 180)
  {
    [Digit(a.deg / 100), Digit(a.deg / 10 % 10), Digit(a.deg % 10), Digit(a.min / 10), Digit(a.min % 10), DOT,
     Digit(a.frac / 10), Digit(a.frac % 10), LonHem(west)]
  }

  function Meant(r: Fields): seq<QChar>
    requires OnEarth(r)
  {
    BANG + LatField(r.lat, r.south) + [r.table] + LonField(r.lon, r.west) + [r.code]
  }

  // ---------------------------------------------------------------- what the chain of arg() gives

  lemma MarkersInOrder()
    ensures Lowest(FROM_10) == 10 && Lowest(FROM_9) == 9 && Lowest(FROM_8) == 8 && Lowest(FROM_7) == 7
    ensures Lowest([DOT] + FROM_8) == 8 && Separate(FROM_10)
  {
    WideMarkerFirst(1, 0, [], 10, []);
    assert FROM_10 == FROM_10 + [];
    MarkerFirst(9, FROM_10, 9, []);
    MarkerFirst(8, FROM_9, 8, []);
    PlainFirst([DOT], FROM_8, 8, []);
    MarkerFirst(7, [DOT] + FROM_8, 7, []);
  }

  lemma EarlierMarkersInOrder()
    ensures Lowest(FROM_6) == 6 && Lowest(FROM_5) == 5 && Lowest(FROM_4) == 4 && Lowest([DOT] + FROM_3) == 3
    ensures Lowest(FROM_2) == 2
  {
    MarkersInOrder();
    MarkerFirst(6, FROM_7, 6, []);
    MarkerFirst(5, FROM_6, 5, []);
    MarkerFirst(4, FROM_5, 4, []);
    MarkerFirst(3, FROM_4, 3, []);
    PlainFirst([DOT], FROM_3, 3, []);
    MarkerFirst(2, [DOT] + FROM_3, 2, []);
  }

  lemma LatChainGives(deg: seq<QChar>, min: seq<QChar>, frac: seq<QChar>, hem: QChar)
    requires PERCENT !in deg && PERCENT !in min && PERCENT !in frac
    ensures LatChain(deg, min, frac, hem) == (BANG + deg + min + [DOT] + frac + [hem]) + FROM_5
  {
    EarlierMarkersInOrder();
    ArgNext(BANG, 1, FROM_2, deg);
    ArgNext(BANG + deg, 2, [DOT] + FROM_3, min);
    var p3 := (BANG + deg + min) + [DOT];
    Assoc(BANG + deg + min, [DOT], FROM_3);
    ArgNext(p3, 3, FROM_4, frac);
    ArgNext(p3 + frac, 4, FROM_5, [hem]);
  }

  lemma LastArg(p: seq<QChar>, code: QChar)
    requires PERCENT !in p
    ensures Arg(p + FROM_10, [code]) == p + [code]
  {
    MarkersInOrder();
    ArgPlain(p, FROM_10, [code]);
    WideMarkerFirst(1, 0, [], 10, [code]);
    assert FROM_10 == FROM_10 + [] && [code] + [] == [code];
  }

  lemma RestPlain(p: seq<QChar>, min: seq<QChar>, frac: seq<QChar>, hem: QChar, code: QChar)
    requires PERCENT !in p && PERCENT !in min && PERCENT !in frac && hem != PERCENT
    ensures Rest(p + FROM_7, min, frac, hem, code) == p + min + [DOT] + frac + [hem] + [code]
  {
    MarkersInOrder();
    ArgNext(p, 7, [DOT] + FROM_8, min);
    var p8 := (p + min) + [DOT];
    Assoc(p + min, [DOT], FROM_8);
    ArgNext(p8, 8, FROM_9, frac);
    ArgNext(p8 + frac, 9, FROM_10, [hem]);
    LastArg(p8 + frac + [hem], code);
  }

  lemma LonChainGives(p: seq<QChar>, table: QChar, deg: seq<QChar>, min: seq<QChar>, frac: seq<QChar>, hem: QChar,
                      code: QChar)
    requires PERCENT !in p && PERCENT !in deg && PERCENT !in min && PERCENT !in frac
    requires table != PERCENT && hem != PERCENT
    ensures LonChain(Arg(p + FROM_5, [table]), deg, min, frac, hem, code)
         == p + [table] + deg + min + [DOT] + frac + [hem] + [code]
  {
    EarlierMarkersInOrder();
    MarkersInOrder();
    ArgNext(p, 5, FROM_6, [table]);
    ArgNext(p + [table], 6, FROM_7, deg);
    RestPlain(p + [table] + deg, min, frac, hem, code);
  }

  lemma LatIs(a: Angle, south: bool)
    requires InRange(a, 90)
    ensures var deg, min, frac := Padded(a.deg, 2), Padded(a.min, 2), Padded(a.frac, 2);
            && PERCENT !in deg && PERCENT !in min && PERCENT !in frac && PERCENT !in LatField(a, south)
            && BANG + deg + min + [DOT] + frac + [LatHem(south)] == BANG + LatField(a, south)
  {
    Padded2(a.deg);
    Padded2(a.min);
    Padded2(a.frac);
  }

  lemma LonIs(a: Angle, west: bool)
    requires InRange(a, 180)
    ensures var deg, min, frac := Padded(a.deg, 3), Padded(a.min, 2), Padded(a.frac, 2);
            && PERCENT !in deg && PERCENT !in min && PERCENT !in frac
            && deg + min + [DOT] + frac + [LonHem(west)] == LonField(a, west)
  {
    Padded3(a.deg);
    Padded2(a.min);
    Padded2(a.frac);
  }

  lemma Grouped(p: seq<QChar>, t: seq<QChar>, a: seq<QChar>, b: seq<QChar>, c: seq<QChar>, d: seq<QChar>,
                e: seq<QChar>, f: seq<QChar>)
    ensures p + t + a + b + c + d + e + f == p + t + (a + b + c + d + e) + f
  {
    Assoc(p + t, a, b);
    Assoc(p + t, a + b, c);
    Assoc(p + t, a + b + c, d);
    Assoc(p + t, a + b + c + d, e);
  }

  /** The latitude's part of the chain comes out as meant, whatever the table. */
  lemma LatFilled(r: Fields)
    requires OnEarth(r)
    ensures LatChain(Padded(r.lat.deg, 2), Padded(r.lat.min, 2), Padded(r.lat.frac, 2), LatHem(r.south))
         == (BANG + LatField(r.lat, r.south)) + FROM_5
    ensures PERCENT !in BANG + LatField(r.lat, r.south)
  {
    LatIs(r.lat, r.south);
    LatChainGives(Padded(r.lat.deg, 2), Padded(r.lat.min, 2), Padded(r.lat.frac, 2), LatHem(r.south));
  }

  /** Any table but a per cent sign: everything goes where it is meant to. */
  lemma FilledAsMeant(r: Fields)
    requires OnEarth(r) && r.table != PERCENT
    ensures Filled(r) == Meant(r)
  {
    LatFilled(r);
    LonIs(r.lon, r.west);
    var p := BANG + LatField(r.lat, r.south);
    var deg, min, frac := Padded(r.lon.deg, 3), Padded(r.lon.min, 2), Padded(r.lon.frac, 2);
    LonChainGives(p, r.table, deg, min, frac, LonHem(r.west), r.code);
    Grouped(p, [r.table], deg, min, [DOT], frac, [LonHem(r.west)], [r.code]);
  }

  // ---------------------------------------------------------------- a per cent sign as symbol table

  /** The per cent sign and the first two of the three digits after it: a place marker. */
  function Wide(d: nat, e: nat): seq<QChar>
    requires d <= 9 && e <= 9
  {
    [PERCENT, Digit(d), Digit(e)]
  }

  /** What one step of the chain fills in with that marker about. */
  lemma WideStep(p: seq<QChar>, d: nat, e: nat, mid: seq<QChar>, k: nat, t: seq<QChar>, a: seq<QChar>, n: nat)
    requires d <= 9 && e <= 9 && PERCENT !in p && PERCENT !in mid && k <= 9 && Separate(t) && k < Lowest(t)
    requires n == Smaller(10 * d + e, k)
    ensures Arg(p + (Wide(d, e) + (mid + (Marker(k) + t))), a)
         == p + ((if n == 10 * d + e then a else Wide(d, e)) + (mid + ((if n == k then a else Marker(k)) + t)))
  {
    var m := Marker(k) + t;
    ArgPlain(p, Wide(d, e) + (mid + m), a);
    WideMarkerFirst(d, e, mid + m, n, a);
    PlainFirst(mid, m, n, a);
    MarkerFirst(k, t, n, a);
    FillAbsent(t, n, a);
  }

  /** The number is higher than the next marker's: that one alone is filled. */
  lemma WideHigher(p: seq<QChar>, d: nat, e: nat, mid: seq<QChar>, k: nat, t: seq<QChar>, a: seq<QChar>)
    requires d <= 9 && e <= 9 && PERCENT !in p && PERCENT !in mid && k <= 9 && Separate(t) && k < Lowest(t)
    requires k < 10 * d + e
    ensures Arg(p + (Wide(d, e) + (mid + (Marker(k) + t))), a) == p + (Wide(d, e) + ((mid + a) + t))
  {
    WideStep(p, d, e, mid, k, t, a, k);
    Assoc(mid, a, t);
  }

  /** The number is the next marker's: both are filled. */
  lemma WideEqual(p: seq<QChar>, mid: seq<QChar>, k: nat, t: seq<QChar>, a: seq<QChar>)
    requires PERCENT !in p && PERCENT !in mid && k <= 9 && Separate(t) && k < Lowest(t)
    ensures Arg(p + (Wide(0, k) + (mid + (Marker(k) + t))), a) == (p + a + mid + a) + t
  {
    WideStep(p, 0, k, mid, k, t, a, k);
    NestedFour(p, a, mid, a + t);
    Assoc(p + a + mid, a, t);
  }

  /** The number is lower: it takes what the next marker should have had. */
  lemma WideLower(p: seq<QChar>, e: nat, mid: seq<QChar>, k: nat, t: seq<QChar>, a: seq<QChar>)
    requires PERCENT !in p && PERCENT !in mid && e < k <= 9 && Separate(t) && k < Lowest(t)
    ensures Arg(p + (Wide(0, e) + (mid + (Marker(k) + t))), a) == (p + a + mid) + (Marker(k) + t)
  {
    WideStep(p, 0, e, mid, k, t, a, e);
    NestedFour(p, a, mid, Marker(k) + t);
  }

  /** Text without per cent signs at the head of the string stays there. */
  lemma HeadStays(p: seq<QChar>, s: seq<QChar>, a: seq<QChar>)
    requires PERCENT !in p && p <= s
    ensures p <= Arg(s, a)
  {
    assert s == p + s[|p|..];
    ArgPlain(p, s[|p|..], a);
  }

  lemma DegreesAfterPercent(p: seq<QChar>, deg: seq<QChar>)
    requires PERCENT !in p && |deg| == 3
    ensures Arg(Arg(p + FROM_5, [PERCENT]), deg) == p + ([PERCENT] + (deg + FROM_7))
  {
    EarlierMarkersInOrder();
    MarkersInOrder();
    ArgNext(p, 5, FROM_6, [PERCENT]);
    Assoc(p, [PERCENT], FROM_6);
    ArgPlain(p, [PERCENT] + FROM_6, deg);
    PercentFirst(FROM_6, 6, deg);
    MarkerFirst(6, FROM_7, 6, deg);
    FillAbsent(FROM_7, 6, deg);
  }

  /** What stands between the two digits and the last marker. */
  function Middle(f: QChar, min: seq<QChar>, frac: seq<QChar>, hem: QChar): seq<QChar> {
    [f] + min + [DOT] + frac + [hem]
  }

  /** Degrees from 100 on: only the symbol may go astray. */
  lemma HighDegrees(p: seq<QChar>, d: nat, e: nat, f: QChar, min: seq<QChar>, frac: seq<QChar>, hem: QChar)
    requires d <= 9 && e <= 9 && 10 * d + e >= 10 && PERCENT !in p
    requires PERCENT !in min && PERCENT !in frac && hem != PERCENT && f != PERCENT
    ensures Arg(Arg(Arg(p + (Wide(d, e) + ([f] + FROM_7)), min), frac), [hem])
         == p + (Wide(d, e) + (Middle(f, min, frac, hem) + FROM_10))
  {
    MarkersInOrder();
    WideHigher(p, d, e, [f], 7, [DOT] + FROM_8, min);
    var mid8 := [f] + min + [DOT];
    Assoc([f] + min, [DOT], FROM_8);
    WideHigher(p, d, e, mid8, 8, FROM_9, frac);
    WideHigher(p, d, e, mid8 + frac, 9, FROM_10, [hem]);
  }

  lemma LastWide(p: seq<QChar>, d: nat, e: nat, mid: seq<QChar>, code: QChar)
    requires d <= 9 && e <= 9 && 10 * d + e >= 10 && PERCENT !in p && PERCENT !in mid
    ensures Arg(p + (Wide(d, e) + (mid + FROM_10)), [code])
         == p + ((if 10 * d + e == 10 then [code] else Wide(d, e)) + (mid + [code]))
  {
    MarkersInOrder();
    ArgPlain(p, Wide(d, e) + (mid + FROM_10), [code]);
    WideMarkerFirst(d, e, mid + FROM_10, 10, [code]);
    PlainFirst(mid, FROM_10, 10, [code]);
    WideMarkerFirst(1, 0, [], 10, [code]);
    assert FROM_10 == FROM_10 + [] && [code] + [] == [code];
  }

  lemma HeadStaysThrough(p: seq<QChar>, s: seq<QChar>, a: seq<QChar>, b: seq<QChar>)
    requires PERCENT !in p && p <= s
    ensures p <= Arg(s, a) && p <= Arg(Arg(s, a), b)
  {
    HeadStays(p, s, a);
    HeadStays(p, Arg(s, a), b);
  }

  /** Where the table and the longitude belong stands something else: not the table, and no dot in place. */
  predicate Garbled(p: seq<QChar>, s: seq<QChar>) {
    |s| > |p| + 6 && p <= s && s[|p|] != PERCENT && s[|p| + 6] != DOT
  }

  lemma GarbledBy(p: seq<QChar>, a: seq<QChar>, mid: seq<QChar>, b: seq<QChar>, s: seq<QChar>)
    requires 0 < |a| && |a| + |mid| <= 6 < |a| + |mid| + |b| && p + a + mid + b <= s
    requires a[0] != PERCENT && b[6 - |a| - |mid|] != DOT
    ensures Garbled(p, s)
  {
    var whole := p + a + mid + b;
    assert whole[|p|] == a[0] && whole[|p| + 6] == b[6 - |a| - |mid|];
  }

  lemma Together(p: seq<QChar>, a: seq<QChar>, b: seq<QChar>, c: seq<QChar>)
    ensures p + a + b + c == p + (a + b + c)
  {
    Assoc(p, a, b);
    Assoc(p, a + b, c);
  }

  /** The minutes are used up: the fraction takes their place, and the hemisphere that of the fraction. */
  lemma EarlyRest(p: seq<QChar>, frac: seq<QChar>, hem: QChar, code: QChar)
    requires PERCENT !in p && PERCENT !in frac && hem != PERCENT
    ensures p + frac + [DOT] + [hem] <= Arg(Arg(Arg(p + FROM_7, frac), [hem]), [code])
  {
    MarkersInOrder();
    ArgNext(p, 7, [DOT] + FROM_8, frac);
    Assoc(p + frac, [DOT], FROM_8);
    ArgNext(p + frac + [DOT], 8, FROM_9, [hem]);
    HeadStays(p + frac + [DOT] + [hem], p + frac + [DOT] + [hem] + FROM_9, [code]);
  }

  lemma MinutesEarly(p: seq<QChar>, e: nat, f: QChar, min: seq<QChar>, frac: seq<QChar>, hem: QChar, code: QChar)
    requires e < 7 && PERCENT !in p && PERCENT !in min && PERCENT !in frac && f != PERCENT && hem != PERCENT
    ensures p + min + [f] + frac + [DOT] + [hem] <= Rest(p + (Wide(0, e) + ([f] + FROM_7)), min, frac, hem, code)
  {
    MarkersInOrder();
    WideLower(p, e, [f], 7, [DOT] + FROM_8, min);
    EarlyRest(p + min + [f], frac, hem, code);
  }

  /** The minutes are filled, the fraction comes next. */
  lemma FractionNext(p: seq<QChar>, min: seq<QChar>, frac: seq<QChar>, hem: QChar, code: QChar)
    requires PERCENT !in p && PERCENT !in min && PERCENT !in frac
    ensures p + min + [DOT] + frac <= Arg(Arg(Arg((p + min) + ([DOT] + FROM_8), frac), [hem]), [code])
  {
    MarkersInOrder();
    Assoc(p + min, [DOT], FROM_8);
    ArgNext(p + min + [DOT], 8, FROM_9, frac);
    var whole := p + min + [DOT] + frac;
    HeadStaysThrough(whole, whole + FROM_9, [hem], [code]);
  }

  lemma MinutesTwice(p: seq<QChar>, f: QChar, min: seq<QChar>, frac: seq<QChar>, hem: QChar, code: QChar)
    requires PERCENT !in p && PERCENT !in min && PERCENT !in frac && f != PERCENT
    ensures p + min + [f] + min + [DOT] + frac <= Rest(p + (Wide(0, 7) + ([f] + FROM_7)), min, frac, hem, code)
  {
    MarkersInOrder();
    WideEqual(p, [f], 7, [DOT] + FROM_8, min);
    FractionNext(p + min + [f], min, frac, hem, code);
  }

  lemma MinutesPlaced(p: seq<QChar>, e: nat, f: QChar, min: seq<QChar>)
    requires 7 < e <= 9 && PERCENT !in p && f != PERCENT
    ensures Arg(p + (Wide(0, e) + ([f] + FROM_7)), min) == p + (Wide(0, e) + (([f] + min + [DOT]) + FROM_8))
  {
    MarkersInOrder();
    WideHigher(p, 0, e, [f], 7, [DOT] + FROM_8, min);
    Assoc([f] + min, [DOT], FROM_8);
  }

  lemma FractionTwice(p: seq<QChar>, mid: seq<QChar>, frac: seq<QChar>, hem: QChar, code: QChar)
    requires PERCENT !in p && PERCENT !in mid && PERCENT !in frac
    ensures p + frac + mid + frac <= Arg(Arg(Arg(p + (Wide(0, 8) + (mid + FROM_8)), frac), [hem]), [code])
  {
    MarkersInOrder();
    WideEqual(p, mid, 8, FROM_9, frac);
    var whole := p + frac + mid + frac;
    HeadStaysThrough(whole, whole + FROM_9, [hem], [code]);
  }

  lemma HemisphereTwice(p: seq<QChar>, mid: seq<QChar>, frac: seq<QChar>, hem: QChar, code: QChar)
    requires PERCENT !in p && PERCENT !in mid && PERCENT !in frac && hem != PERCENT
    ensures p + [hem] + (mid + frac) <= Arg(Arg(Arg(p + (Wide(0, 9) + (mid + FROM_8)), frac), [hem]), [code])
  {
    MarkersInOrder();
    WideHigher(p, 0, 9, mid, 8, FROM_9, frac);
    WideEqual(p, mid + frac, 9, FROM_10, [hem]);
    var whole := p + [hem] + (mid + frac);
    HeadStays(whole, whole + [hem] + FROM_10, [code]);
  }

  /** A field that is digits, so neither dot nor per cent sign. */
  predicate TwoDigits(s: seq<QChar>) { |s| == 2 && IsDigit(s[0]) && IsDigit(s[1]) }

  /** Degrees of 80 to 99: the marker is the fraction's or the hemisphere's. */
  lemma LateDegrees(p: seq<QChar>, e: nat, f: QChar, min: seq<QChar>, frac: seq<QChar>, hem: QChar, code: QChar)
    requires 7 < e <= 9 && PERCENT !in p && TwoDigits(min) && TwoDigits(frac) && f != PERCENT && hem != PERCENT
    ensures Garbled(p, Rest(p + (Wide(0, e) + ([f] + FROM_7)), min, frac, hem, code))
  {
    var s, mid := Rest(p + (Wide(0, e) + ([f] + FROM_7)), min, frac, hem, code), [f] + min + [DOT];
    MinutesPlaced(p, e, f, min);
    if e == 8 {
      FractionTwice(p, mid, frac, hem, code);
      GarbledBy(p, frac, mid, frac, s);
    } else {
      HemisphereTwice(p, mid, frac, hem, code);
      Assoc(p + [hem], mid, frac);
      GarbledBy(p, [hem], mid, frac, s);
    }
  }

  /** Degrees below 100: another field takes the place of the table, and the rest is garbled. */
  lemma LowDegrees(p: seq<QChar>, e: nat, f: QChar, min: seq<QChar>, frac: seq<QChar>, hem: QChar, code: QChar)
    requires e <= 9 && PERCENT !in p && TwoDigits(min) && TwoDigits(frac)
    requires f != PERCENT && hem != PERCENT && hem != DOT
    ensures Garbled(p, Rest(p + (Wide(0, e) + ([f] + FROM_7)), min, frac, hem, code))
  {
    var s := Rest(p + (Wide(0, e) + ([f] + FROM_7)), min, frac, hem, code);
    if e < 7 {
      MinutesEarly(p, e, f, min, frac, hem, code);
      Together(p + min, [f], frac, [DOT]);
      GarbledBy(p, min, [f] + frac + [DOT], [hem], s);
    } else if e == 7 {
      MinutesTwice(p, f, min, frac, hem, code);
      Together(p + min, [f], min, [DOT]);
      GarbledBy(p, min, [f] + min + [DOT], frac, s);
    } else {
      LateDegrees(p, e, f, min, frac, hem, code);
    }
  }

  lemma PercentMiddle(r: Fields, p: seq<QChar>, f: QChar)
    requires OnEarth(r) && f == Digit(r.lon.deg % 10) && r.table == PERCENT && p == BANG + LatField(r.lat, r.south)
    ensures var mid := Middle(f, Padded(r.lon.min, 2), Padded(r.lon.frac, 2), LonHem(r.west));
            && p + ([r.code] + (mid + [r.code])) == p + [r.code] + LonField(r.lon, r.west)[2..] + [r.code]
            && p + (Wide(r.lon.deg / 100, r.lon.deg / 10 % 10) + (mid + [r.code])) == Meant(r)
  {
    Padded2(r.lon.min);
    Padded2(r.lon.frac);
    var mid := Middle(f, Padded(r.lon.min, 2), Padded(r.lon.frac, 2), LonHem(r.west));
    var lon := LonField(r.lon, r.west);
    assert mid == lon[2..];
    assert Wide(r.lon.deg / 100, r.lon.deg / 10 % 10) + (mid + [r.code]) == [PERCENT] + lon + [r.code];
  }

  lemma WideSplits(d: QChar, e: QChar, f: QChar, t: seq<QChar>)
    ensures [PERCENT] + ([d, e, f] + t) == [PERCENT, d, e] + ([f] + t)
  {
  }

  /** With a per cent sign as table the longitude's part of the chain starts from here. */
  lemma PercentStart(r: Fields)
    requires OnEarth(r) && r.table == PERCENT
    ensures var p := BANG + LatField(r.lat, r.south);
            var s := p + (Wide(r.lon.deg / 100, r.lon.deg / 10 % 10) + ([Digit(r.lon.deg % 10)] + FROM_7));
            && PERCENT !in p
            && Filled(r) == Rest(s, Padded(r.lon.min, 2), Padded(r.lon.frac, 2), LonHem(r.west), r.code)
  {
    LatFilled(r);
    Padded3(r.lon.deg);
    var deg := Padded(r.lon.deg, 3);
    DegreesAfterPercent(BANG + LatField(r.lat, r.south), deg);
    WideSplits(Digit(r.lon.deg / 100), Digit(r.lon.deg / 10 % 10), Digit(r.lon.deg % 10), FROM_7);
  }

  lemma PercentLow(r: Fields)
    requires OnEarth(r) && r.table == PERCENT && r.lon.deg < 100
    ensures Garbled(BANG + LatField(r.lat, r.south), Filled(r))
  {
    PercentStart(r);
    Padded2(r.lon.min);
    Padded2(r.lon.frac);
    LowDegrees(BANG + LatField(r.lat, r.south), r.lon.deg / 10 % 10, Digit(r.lon.deg % 10),
               Padded(r.lon.min, 2), Padded(r.lon.frac, 2), LonHem(r.west), r.code);
  }

  lemma HighRest(p: seq<QChar>, d: nat, e: nat, f: QChar, min: seq<QChar>, frac: seq<QChar>, hem: QChar, code: QChar)
    requires d <= 9 && e <= 9 && 10 * d + e >= 10 && PERCENT !in p
    requires PERCENT !in min && PERCENT !in frac && hem != PERCENT && f != PERCENT
    ensures Rest(p + (Wide(d, e) + ([f] + FROM_7)), min, frac, hem, code)
         == p + ((if 10 * d + e == 10 then [code] else Wide(d, e)) + (Middle(f, min, frac, hem) + [code]))
  {
    HighDegrees(p, d, e, f, min, frac, hem);
    LastWide(p, d, e, Middle(f, min, frac, hem), code);
  }

  lemma LeadingDigits(deg: nat)
    requires 100 <= deg <= 180
    ensures deg / 100 <= 9 && deg / 10 % 10 <= 9 && 10 * (deg / 100) + deg / 10 % 10 >= 10
    ensures deg < 110 <==> 10 * (deg / 100) + deg / 10 % 10 == 10
  {
  }

  lemma PercentRest(r: Fields)
    requires OnEarth(r) && r.table == PERCENT && r.lon.deg >= 100
    ensures var mid := Middle(Digit(r.lon.deg % 10), Padded(r.lon.min, 2), Padded(r.lon.frac, 2), LonHem(r.west));
            Filled(r) == BANG + LatField(r.lat, r.south)
                       + ((if r.lon.deg < 110 then [r.code] else Wide(r.lon.deg / 100, r.lon.deg / 10 % 10))
                          + (mid + [r.code]))
  {
    PercentStart(r);
    LonIs(r.lon, r.west);
    LeadingDigits(r.lon.deg);
    HighRest(BANG + LatField(r.lat, r.south), r.lon.deg / 100, r.lon.deg / 10 % 10, Digit(r.lon.deg % 10),
             Padded(r.lon.min, 2), Padded(r.lon.frac, 2), LonHem(r.west), r.code);
  }

  lemma PercentHigh(r: Fields)
    requires OnEarth(r) && r.table == PERCENT && r.lon.deg >= 100
    ensures Filled(r) == if r.lon.deg >= 110 then Meant(r)
                         else BANG + LatField(r.lat, r.south) + [r.code] + LonField(r.lon, r.west)[2..] + [r.code]
  {
    PercentRest(r);
    PercentMiddle(r, BANG + LatField(r.lat, r.south), Digit(r.lon.deg % 10));
  }

  /** The chain of arg() does what it is meant to exactly when the table is no per cent sign or the
      degrees of longitude are at least 110. */
  lemma FilledAsMeantIff(r: Fields)
    requires OnEarth(r)
    ensures Filled(r) == Meant(r) <==> r.table != PERCENT || r.lon.deg >= 110
  {
    if r.table != PERCENT {
      FilledAsMeant(r);
    } else if r.lon.deg >= 100 {
      PercentHigh(r);
    } else {
      PercentLow(r);
    }
  }

  // ---------------------------------------------------------------- the report

  function Shortened(comment: seq<QChar>): seq<QChar> {
    if |comment| > COMMENT_MAX then comment[..COMMENT_MAX] else comment
  }

  function TableOf(c: QChar): QChar { if c == 0 then '/' as int else c }

  function CodeOf(c: QChar): QChar { if c == 0 then '.' as int else c }

  function FieldsOf(lat: real, lon: real, table: QChar, code: QChar): (r: Fields)
    requires Magnitude(lat) <= 90.0 && Magnitude(lon) <= 180.0
    ensures OnEarth(r)
  {
    RoundingError(Magnitude(lat), 90);
    RoundingError(Magnitude(lon), 180);
    Fields(ToAngle(Magnitude(lat)), lat < 0.0, TableOf(table), ToAngle(Magnitude(lon)), lon < 0.0, CodeOf(code))
  }

  /** buildPositionInfo for positions on Earth. */
  function Build(lat: real, lon: real, table: QChar, code: QChar, comment: seq<QChar>): seq<byte>
    requires Magnitude(lat) <= 90.0 && Magnitude(lon) <= 180.0
  {
    ToLatin1(Filled(FieldsOf(lat, lon, table, code)) + Shortened(comment))
  }

  // ---------------------------------------------------------------- parsing

  /** What parsePosition makes of a report; the other two formats go to their own parsers. */
  datatype Report =
    | Position(lat: real, lon: real, table: int, code: int, comment: seq<int>)
    | Rejected
    | Compressed(body: seq<byte>)
    | MicE(payload: seq<byte>)

  /** Digits, blanks as zeros for ambiguous positions, -1 for anything else. */
  function DigOrZero(c: int): int {
    if c == ' ' as int then 0 else if IsDigit(c) then c - 48 else -1
  }

  function Two(a: int, b: int): int { DigOrZero(a) * 10 + DigOrZero(b) }

  function Three(a: int, b: int, c: int): int { DigOrZero(a) * 100 + DigOrZero(b) * 10 + DigOrZero(c) }

  function Signed(x: real, negative: bool): real { if negative then -x else x }

  /** The fields cut out of a report: DDMM.mmH, a symbol table, DDDMM.mmH, a symbol, a comment. */
  function ParseFields(lat: seq<byte>, table: byte, lon: seq<byte>, code: byte, comment: seq<int>): Report
    requires |lat| == 8 && |lon| == 9
  {
    if (lat[7] != 'N' as int && lat[7] != 'S' as int) || (lon[8] != 'E' as int && lon[8] != 'W' as int) then Rejected
    else
      var a := Angle(Two(lat[0], lat[1]), Two(lat[2], lat[3]), Two(lat[5], lat[6]));
      var b := Angle(Three(lon[0], lon[1], lon[2]), Two(lon[3], lon[4]), Two(lon[6], lon[7]));
      if lat[4] != DOT || a.deg < 0 || a.min < 0 || a.frac < 0 then Rejected
      else if lon[5] != DOT || b.deg < 0 || b.min < 0 || b.frac < 0 then Rejected
      else
        Position(Signed(ToDegrees(a), lat[7] == 'S' as int), Signed(ToDegrees(b), lon[8] == 'W' as int), table, code,
                 comment)
  }

  function ParseUncompressed(body: seq<byte>): Report {
    if |body| < 19 then Rejected
    else ParseFields(body[..8], body[8], body[9..18], body[18], Trimmed(body[19..]))
  }

  /** An optional time of seven characters. */
  function StripTimestamp(s: seq<byte>): seq<byte> {
    if |s| < 7 || s[6] !in ['z' as int, '/' as int, 'h' as int] then s
    else if forall i :: 0 <= i < 6 ==> IsDigit(s[i]) then s[7..]
    else s
  }

  function Parse(info: seq<byte>): Report {
    if info == [] then Rejected
    else if info[0] in ['!' as int, '=' as int, '/' as int, '@' as int] then
      var body := if info[0] in ['/' as int, '@' as int] then StripTimestamp(info[1..]) else info[1..];
      if body == [] then Rejected
      else if IsDigit(body[0]) || body[0] == ' ' as int then ParseUncompressed(body)
      else Compressed(body)
    else if info[0] in ['\'' as int, '`' as int, 0x1C, 0x1D] then MicE(info[1..])
    else Rejected
  }

  // ---------------------------------------------------------------- which reports are accepted

  predicate DigitOrBlank(c: int) { c == ' ' as int || IsDigit(c) }

  predicate OneToNine(c: int) { IsDigit(c) && c != 48 }

  /** A two-character field is let through exactly when its first character is a digit or blank, and
      its second is too unless the first is one to nine. */
  predicate TwoPass(a: int, b: int) { DigitOrBlank(a) && (DigitOrBlank(b) || OneToNine(a)) }

  /** And one of three characters when the first that is not one to nine has only digits and blanks
      before it and itself is one. */
  predicate ThreePass(a: int, b: int, c: int) {
    DigitOrBlank(a) && (OneToNine(a) || (DigitOrBlank(b) && (OneToNine(b) || DigitOrBlank(c))))
  }

  lemma TwoAcceptedIff(a: int, b: int)
    ensures Two(a, b) >= 0 <==> TwoPass(a, b)
  {
  }

  lemma ThreeAcceptedIff(a: int, b: int, c: int)
    ensures Three(a, b, c) >= 0 <==> ThreePass(a, b, c)
  {
  }

  predicate LatPass(s: seq<byte>)
    requires |s| == 8
  {
    TwoPass(s[0], s[1]) && TwoPass(s[2], s[3]) && s[4] == DOT && TwoPass(s[5], s[6])
    && s[7] in ['N' as int, 'S' as int]
  }

  predicate LonPass(s: seq<byte>)
    requires |s| == 9
  {
    ThreePass(s[0], s[1], s[2]) && TwoPass(s[3], s[4]) && s[5] == DOT && TwoPass(s[6], s[7])
    && s[8] in ['E' as int, 'W' as int]
  }

  /** Which reports without compression are accepted: the symbols may be anything, and so may a
      character after one to nine in a field. */
  lemma AcceptedIff(body: seq<byte>)
    ensures ParseUncompressed(body).Position? <==> |body| >= 19 && LatPass(body[..8]) && LonPass(body[9..18])
  {
    if |body| >= 19 {
      var lat, lon := body[..8], body[9..18];
      TwoAcceptedIff(lat[0], lat[1]);
      TwoAcceptedIff(lat[2], lat[3]);
      TwoAcceptedIff(lat[5], lat[6]);
      ThreeAcceptedIff(lon[0], lon[1], lon[2]);
      TwoAcceptedIff(lon[3], lon[4]);
      TwoAcceptedIff(lon[6], lon[7]);
    }
  }

  /** 4x30.00N at the table and 1xx30.00E: a report with three characters that are no digits. */
  const WITH_LETTERS: seq<byte> :=
    [52, 120, 51, 48, 46, 48, 48, 78, 47, 49, 120, 120, 51, 48, 46, 48, 48, 69, 62]

  /** Such a report is accepted: 4x reads as 39 degrees and 1xx as 89. */
  lemma LettersSlipThrough()
    ensures !DigitOrBlank('x' as int) && WITH_LETTERS[1] == WITH_LETTERS[10] == WITH_LETTERS[11] == 'x' as int
    ensures var r := ParseUncompressed(WITH_LETTERS); r.Position? && r.lat == 39.5 && r.lon == 89.5
  {
    assert WITH_LETTERS[..8] == [52, 120, 51, 48, 46, 48, 48, 78];
    assert WITH_LETTERS[9..18] == [49, 120, 120, 51, 48, 46, 48, 48, 69];
  }

  // ---------------------------------------------------------------- round trip

  lemma TwoReads(n: nat)
    requires n < 100
    ensures Two(Digit(n / 10), Digit(n % 10)) == n
  {
  }

  lemma ThreeReads(n: nat)
    requires n < 1000
    ensures Three(Digit(n / 100), Digit(n / 10 % 10), Digit(n % 10)) == n
  {
    assert n / 10 == n / 100 * 10 + n / 10 % 10;
  }

  lemma FieldsParse(a: Angle, b: Angle, south: bool, west: bool, table: byte, code: byte, comment: seq<int>)
    requires InRange(a, 90) && InRange(b, 180)
    ensures ParseFields(ToLatin1(LatField(a, south)), table, ToLatin1(LonField(b, west)), code, comment)
         == Position(Signed(ToDegrees(a), south), Signed(ToDegrees(b), west), table, code, comment)
  {
    TwoReads(a.deg);
    TwoReads(a.min);
    TwoReads(a.frac);
    ThreeReads(b.deg);
    TwoReads(b.min);
    TwoReads(b.frac);
  }

  lemma Latin1Cut(s: seq<QChar>, i: nat, j: nat)
    requires i <= j <= |s|
    ensures ToLatin1(s)[i..j] == ToLatin1(s[i..j])
  {
  }

  lemma PartsCut(lat: seq<QChar>, table: QChar, lon: seq<QChar>, code: QChar, comment: seq<QChar>, s: seq<QChar>)
    requires |lat| == 8 && |lon| == 9 && s == BANG + lat + [table] + lon + [code] + comment
    ensures |s| == 20 + |comment| && s[0] == '!' as int && s[1] == lat[0] && s[9] == table && s[19] == code
    ensures s[1..9] == lat && s[10..19] == lon && s[20..] == comment
  {
  }

  /** The bytes of what is meant, cut as the parser cuts them. */
  lemma MeantCut(r: Fields, comment: seq<QChar>)
    requires OnEarth(r)
    ensures var info := ToLatin1(Meant(r) + comment);
            && |info| >= 20 && info[0] == '!' as int && IsDigit(info[1]) && info[9] == Latin1(r.table)
            && info[1..9] == ToLatin1(LatField(r.lat, r.south)) && info[10..19] == ToLatin1(LonField(r.lon, r.west))
            && info[19] == Latin1(r.code) && info[20..] == ToLatin1(comment)
  {
    var s := Meant(r) + comment;
    PartsCut(LatField(r.lat, r.south), r.table, LonField(r.lon, r.west), r.code, comment, s);
    Latin1Cut(s, 1, 9);
    Latin1Cut(s, 10, 19);
    Latin1Cut(s, 20, |s|);
  }

  /** What the parser cuts after the first byte, by its place in the whole. */
  lemma BodyCut(info: seq<byte>)
    requires |info| >= 20
    ensures var body := info[1..];
            && body[..8] == info[1..9] && body[8] == info[9] && body[9..18] == info[10..19]
            && body[18] == info[19] && body[19..] == info[20..]
  {
  }

  lemma MeantIsParsed(r: Fields, comment: seq<QChar>)
    requires OnEarth(r)
    ensures Parse(ToLatin1(Meant(r) + comment))
         == Position(Signed(ToDegrees(r.lat), r.south), Signed(ToDegrees(r.lon), r.west),
                     Latin1(r.table), Latin1(r.code), Trimmed(ToLatin1(comment)))
  {
    var info := ToLatin1(Meant(r) + comment);
    MeantCut(r, comment);
    BodyCut(info);
    FieldsParse(r.lat, r.lon, r.south, r.west, Latin1(r.table), Latin1(r.code), Trimmed(ToLatin1(comment)));
    assert Parse(info) == ParseUncompressed(info[1..]);
  }

  /** The chain of arg() puts every field where it belongs: FilledAsMeantIff. */
  predicate FieldsLand(lon: real, table: QChar) {
    TableOf(table) != PERCENT || ToAngle(Magnitude(lon)).deg >= 110
  }

  function ReadBack(x: real): real { Signed(ToDegrees(ToAngle(Magnitude(x))), x < 0.0) }

  /** What is built is parsed: each coordinate off by at most 1/12000 of a degree, symbols and comment
      as Latin-1 has them. */
  lemma BuiltIsParsed(lat: real, lon: real, table: QChar, code: QChar, comment: seq<QChar>)
    requires Magnitude(lat) <= 90.0 && Magnitude(lon) <= 180.0 && FieldsLand(lon, table)
    ensures Parse(Build(lat, lon, table, code, comment))
         == Position(ReadBack(lat), ReadBack(lon), Latin1(TableOf(table)), Latin1(CodeOf(code)),
                     Trimmed(ToLatin1(Shortened(comment))))
    ensures Magnitude(ReadBack(lat) - lat) <= 1.0 / 12000.0 && Magnitude(ReadBack(lon) - lon) <= 1.0 / 12000.0
  {
    RoundingError(Magnitude(lat), 90);
    RoundingError(Magnitude(lon), 180);
    var r := FieldsOf(lat, lon, table, code);
    FilledAsMeantIff(r);
    MeantIsParsed(r, Shortened(comment));
  }

  /** The report comes back with symbols and comment as given. */
  predicate Recovered(r: Report, lat: real, lon: real, table: QChar, code: QChar, comment: seq<QChar>) {
    r == Position(ReadBack(lat), ReadBack(lon), TableOf(table), CodeOf(code), Trimmed(Shortened(comment)))
  }

  lemma NoDotIsRejected(s: seq<QChar>)
    requires |s| > 15 && s[0] == '!' as int && IsDigit(s[1]) && s[15] != DOT
    ensures Parse(ToLatin1(s)) == Rejected
  {
    var info := ToLatin1(s);
    assert info[0] == '!' as int && IsDigit(info[1]) && info[15] != DOT;
    assert Parse(info) == ParseUncompressed(info[1..]);
  }

  /** Other fields where table and longitude belong: the report is not accepted. */
  lemma GarbledIsRejected(r: Fields, comment: seq<QChar>)
    requires OnEarth(r) && r.table == PERCENT && r.lon.deg < 100
    ensures Parse(ToLatin1(Filled(r) + comment)) == Rejected
  {
    PercentLow(r);
    var p, s := BANG + LatField(r.lat, r.south), Filled(r) + comment;
    assert s[0] == p[0] && s[1] == p[1] && s[15] == Filled(r)[|p| + 6];
    NoDotIsRejected(s);
  }

  lemma CodeAstrayIsRejected(r: Fields, comment: seq<QChar>)
    requires OnEarth(r) && r.table == PERCENT && 100 <= r.lon.deg < 110
    ensures Parse(ToLatin1(Filled(r) + comment)) == Rejected
  {
    PercentHigh(r);
    var s := Filled(r) + comment;
    assert s[1] == LatField(r.lat, r.south)[0] && s[15] == LonField(r.lon, r.west)[7];
    NoDotIsRejected(s);
  }

  /** What is built is accepted exactly when every field lands where it belongs. */
  lemma BuiltIsAcceptedIff(lat: real, lon: real, table: QChar, code: QChar, comment: seq<QChar>)
    requires Magnitude(lat) <= 90.0 && Magnitude(lon) <= 180.0
    ensures var r := Parse(Build(lat, lon, table, code, comment));
            (r.Position? <==> FieldsLand(lon, table)) && (r.Position? || r.Rejected?)
  {
    var r := FieldsOf(lat, lon, table, code);
    if FieldsLand(lon, table) {
      BuiltIsParsed(lat, lon, table, code, comment);
    } else if r.lon.deg < 100 {
      GarbledIsRejected(r, Shortened(comment));
    } else {
      CodeAstrayIsRejected(r, Shortened(comment));
    }
  }

  /** Exactly when this is so: symbols and comment must exist in Latin-1, and a per cent sign as table
      needs 110 degrees of longitude. */
  lemma RecoveredIff(lat: real, lon: real, table: QChar, code: QChar, comment: seq<QChar>)
    requires Magnitude(lat) <= 90.0 && Magnitude(lon) <= 180.0
    ensures Recovered(Parse(Build(lat, lon, table, code, comment)), lat, lon, table, code, comment)
       <==> FieldsLand(lon, table) && TableOf(table) <= 0xFF && CodeOf(code) <= 0xFF && AllLatin1(Shortened(comment))
  {
    BuiltIsAcceptedIff(lat, lon, table, code, comment);
    if FieldsLand(lon, table) {
      BuiltIsParsed(lat, lon, table, code, comment);
      TrimmedLatin1Iff(Shortened(comment));
    }
  }

  const EURO: QChar := 0x20AC

  lemma EuroComment(comment: seq<QChar>)
    requires comment == [55, 51, 32, EURO]
    ensures Shortened(comment) == comment && Trimmed(ToLatin1(comment)) == [55, 51, 32, 63]
  {
    assert ToLatin1(comment) == [55, 51, 32, 63];
    assert TrimLeft(ToLatin1(comment)) == ToLatin1(comment);
  }

  /** So 73 followed by a euro sign arrives as 73 followed by a question mark, from any place. */
  lemma EuroIsLost(lat: real, lon: real)
    requires Magnitude(lat) <= 90.0 && Magnitude(lon) <= 180.0
    ensures var r := Parse(Build(lat, lon, 0, 0, [55, 51, 32, EURO])); r.Position? && r.comment == [55, 51, 32, 63]
  {
    var comment: seq<QChar> := [55, 51, 32, EURO];
    BuiltIsParsed(lat, lon, 0, 0, comment);
    EuroComment(comment);
  }

  /** And a report from 10 degrees east with table % is not accepted at all. */
  lemma PercentIsLost(lat: real, code: QChar, comment: seq<QChar>)
    requires Magnitude(lat) <= 90.0
    ensures Parse(Build(lat, 10.0, PERCENT, code, comment)) == Rejected
  {
    BuiltIsAcceptedIff(lat, 10.0, PERCENT, code, comment);
  }

  lemma Relayed(x: real, most: int)
    requires 0.0 <= x <= most as real
    ensures var y := ToDegrees(ToAngle(x));
            && 0.0 <= y <= most as real && ToAngle(y) == ToAngle(x)
            && (y == 0.0 <==> ToAngle(x) == Angle(0, 0, 0))
  {
    RoundingError(x, most);
    AngleStable(ToAngle(x));
  }

  /** A coordinate that is written as it was, and on the same side exactly unless it rounded to zero
      from below. */
  predicate SamePlace(x: real, y: real, most: int) {
    && Magnitude(y) <= most as real && ToAngle(Magnitude(y)) == ToAngle(Magnitude(x))
    && ((y < 0.0) == (x < 0.0) <==> x >= 0.0 || ToAngle(Magnitude(x)) != Angle(0, 0, 0))
  }

  lemma OneCoordinate(x: real, y: real, most: int)
    requires Magnitude(x) <= most as real && y == Signed(ToDegrees(ToAngle(Magnitude(x))), x < 0.0)
    ensures SamePlace(x, y, most)
  {
    Relayed(Magnitude(x), most);
  }

  /** Relaying a position does not move it: built again from what was parsed, if it was, it has the same
      digits, and the same hemispheres exactly unless a coordinate west or south rounded to zero. */
  lemma RelayedStays(lat: real, lon: real, table: QChar, code: QChar, comment: seq<QChar>)
    requires Magnitude(lat) <= 90.0 && Magnitude(lon) <= 180.0
    ensures var r := Parse(Build(lat, lon, table, code, comment));
            && (r.Position? <==> FieldsLand(lon, table))
            && (r.Position? ==> SamePlace(lat, r.lat, 90) && SamePlace(lon, r.lon, 180))
  {
    BuiltIsAcceptedIff(lat, lon, table, code, comment);
    if FieldsLand(lon, table) {
      BuiltIsParsed(lat, lon, table, code, comment);
      OneCoordinate(lat, ReadBack(lat), 90);
      OneCoordinate(lon, ReadBack(lon), 180);
    }
  }
}
