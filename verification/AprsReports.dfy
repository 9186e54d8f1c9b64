/** Whole APRS reports: what stands in front of a position, and which reports are accepted as one. */
module AprsReports {
  import opened Bytes
  import opened QtText
  import opened AprsPosition

  /** Six digits and a letter: DDHHMMz, DDHHMM/ or HHMMSSh. */
  predicate IsTime(t: seq<byte>) {
    |t| == 7 && (forall i :: 0 <= i < 6 ==> IsDigit(t[i])) && t[6] in ['z' as int, '/' as int, 'h' as int]
  }

  predicate BeginsWithTime(s: seq<byte>) { |s| >= 7 && IsTime(s[..7]) }

  const BANG_TYPE: byte := 0x21

  const EQUALS_TYPE: byte := 0x3D

  /** The report types that may carry a time: '/' and '@'. */
  predicate MayBeTimed(d: byte) { d == 0x2F || d == 0x40 }

  lemma TimeStripped(t: seq<byte>, body: seq<byte>)
    requires IsTime(t)
    ensures StripTimestamp(t + body) == body
  {
    var s := t + body;
    assert s[6] == t[6] && s[7..] == body && forall i :: 0 <= i < 6 ==> s[i] == t[i];
  }

  lemma NothingStripped(s: seq<byte>)
    requires !BeginsWithTime(s)
    ensures StripTimestamp(s) == s
  {
    if |s| >= 7 {
      assert s[..7][6] == s[6] && forall i :: 0 <= i < 6 ==> s[..7][i] == s[i];
    }
  }

  /** A time is skipped: the report reads as one without, and only the first seven characters go. */
  lemma TimedReads(d: byte, t: seq<byte>, body: seq<byte>)
    requires MayBeTimed(d) && IsTime(t)
    ensures Parse([d] + (t + body)) == Parse([BANG_TYPE] + body)
  {
    TimeStripped(t, body);
    assert ([d] + (t + body))[1..] == t + body && ([BANG_TYPE] + body)[1..] == body;
  }

  /** Without one all four types read alike. */
  lemma UntimedReads(d: byte, body: seq<byte>)
    requires d == EQUALS_TYPE || (MayBeTimed(d) && !BeginsWithTime(body))
    ensures Parse([d] + body) == Parse([BANG_TYPE] + body)
  {
    assert ([d] + body)[1..] == body && ([BANG_TYPE] + body)[1..] == body;
    if MayBeTimed(d) {
      NothingStripped(body);
    }
  }

  // ---------------------------------------------------------------- built reports

  lemma BuiltHead(r: Fields)
    requires OnEarth(r)
    ensures |Filled(r)| >= 9 && Filled(r)[..9] == BANG + LatField(r.lat, r.south)
  {
    var p := BANG + LatField(r.lat, r.south);
    if r.table != PERCENT {
      FilledAsMeant(r);
      assert Meant(r)[..9] == p;
    } else if r.lon.deg >= 100 {
      PercentHigh(r);
      assert Meant(r)[..9] == p;
    } else {
      PercentLow(r);
    }
  }

  lemma BuiltBegins(lat: real, lon: real, table: QChar, code: QChar, comment: seq<QChar>)
    requires Magnitude(lat) <= 90.0 && Magnitude(lon) <= 180.0
    ensures var info := Build(lat, lon, table, code, comment);
            |info| >= 9 && info[0] == BANG_TYPE && info[5] == DOT
  {
    var r := FieldsOf(lat, lon, table, code);
    BuiltHead(r);
    var s := Filled(r) + Shortened(comment);
    assert s[0] == Filled(r)[..9][0] && s[5] == Filled(r)[..9][5];
  }

  /** A built report with a time put in, or sent as another type, reads as the same place, or is as
      little accepted. */
  lemma BuiltWithTimeReads(d: byte, t: seq<byte>, lat: real, lon: real, table: QChar, code: QChar, comment: seq<QChar>)
    requires Magnitude(lat) <= 90.0 && Magnitude(lon) <= 180.0 && IsTime(t) && MayBeTimed(d)
    ensures var info := Build(lat, lon, table, code, comment);
            && |info| > 0 && info[0] == BANG_TYPE
            && Parse([d] + (t + info[1..])) == Parse([d] + info[1..]) == Parse([EQUALS_TYPE] + info[1..]) == Parse(info)
  {
    var info := Build(lat, lon, table, code, comment);
    BuiltBegins(lat, lon, table, code, comment);
    var body := info[1..];
    assert info == [BANG_TYPE] + body && body[4] == DOT;
    assert !BeginsWithTime(body);
    TimedReads(d, t, body);
    UntimedReads(d, body);
    UntimedReads(EQUALS_TYPE, body);
  }

  // ---------------------------------------------------------------- which reports are positions

  predicate IsPositionType(d: byte) { d == BANG_TYPE || d == EQUALS_TYPE || MayBeTimed(d) }

  /** What stands where a position is looked for. */
  function BodyOf(info: seq<byte>): seq<byte>
    requires info != []
  {
    if MayBeTimed(info[0]) && BeginsWithTime(info[1..]) then info[8..] else info[1..]
  }

  predicate Passes(body: seq<byte>) { |body| >= 19 && LatPass(body[..8]) && LonPass(body[9..18]) }

  lemma PassBegins(body: seq<byte>)
    requires Passes(body)
    ensures DigitOrBlank(body[0])
  {
    assert body[..8][0] == body[0];
  }

  /** Every report reads as a plain one with its body. */
  lemma BodyReads(info: seq<byte>)
    requires info != [] && IsPositionType(info[0])
    ensures Parse(info) == Parse([BANG_TYPE] + BodyOf(info))
  {
    var d, rest := info[0], info[1..];
    assert info == [d] + rest;
    if MayBeTimed(d) && BeginsWithTime(rest) {
      assert rest == rest[..7] + info[8..];
      TimedReads(d, rest[..7], info[8..]);
    } else if d != BANG_TYPE {
      UntimedReads(d, rest);
    }
  }

  /** Which reports are accepted as an uncompressed position: the right type, a time only where one may
      be, and behind it the fields. */
  lemma PositionIff(info: seq<byte>)
    ensures Parse(info).Position? <==> info != [] && IsPositionType(info[0]) && Passes(BodyOf(info))
  {
    if info != [] && IsPositionType(info[0]) {
      var body := BodyOf(info);
      BodyReads(info);
      assert ([BANG_TYPE] + body)[1..] == body;
      AcceptedIff(body);
      if Passes(body) {
        PassBegins(body);
      }
    }
  }

  const EXAMPLE_TIME: seq<byte> := [48, 57, 50, 51, 52, 53, 0x7A]

  const EXAMPLE_LAT: seq<byte> := [52, 57, 48, 51, 46, 53, 48, 78]

  const EXAMPLE_LON: seq<byte> := [48, 55, 50, 48, 49, 46, 55, 53, 87]

  lemma ExampleFields()
    ensures ParseFields(EXAMPLE_LAT, 0x2F, EXAMPLE_LON, 0x3E, [])
         == Position(49.0 + 3.5 / 60.0, -(72.0 + 1.75 / 60.0), 0x2F, 0x3E, [])
  {
  }

  lemma BodyParts(lat: seq<byte>, table: byte, lon: seq<byte>, code: byte, body: seq<byte>)
    requires |lat| == 8 && |lon| == 9 && body == lat + [table] + lon + [code] && DigitOrBlank(lat[0])
    ensures Parse([BANG_TYPE] + body) == ParseFields(lat, table, lon, code, [])
  {
    assert ([BANG_TYPE] + body)[1..] == body && body[..8] == lat && body[8] == table && body[9..18] == lon;
    assert body[0] == lat[0] && body[18] == code && body[19..] == [] && Trimmed([]) == [];
  }

  /** @092345z4903.50N/07201.75W> is 49 degrees 3.50 minutes north and 72 degrees 1.75 minutes west. */
  lemma TimedExample()
    ensures Parse([0x40] + (EXAMPLE_TIME + (EXAMPLE_LAT + [0x2F] + EXAMPLE_LON + [0x3E])))
         == Position(49.0 + 3.5 / 60.0, -(72.0 + 1.75 / 60.0), 0x2F, 0x3E, [])
  {
    var body := EXAMPLE_LAT + [0x2F] + EXAMPLE_LON + [0x3E];
    TimedReads(0x40, EXAMPLE_TIME, body);
    BodyParts(EXAMPLE_LAT, 0x2F, EXAMPLE_LON, 0x3E, body);
    ExampleFields();
  }

  // ---------------------------------------------------------------- all kinds of reports

  /** How a report's first character and what stands in front of its body decide who reads it, and what
      the others are given: an apostrophe, a grave accent, 0x1C or 0x1D are MIC-E, without that character;
      a position that begins with neither digit nor blank is a compressed one. */
  lemma ReportKinds(info: seq<byte>)
    ensures Parse(info).MicE? <==> info != [] && info[0] in {0x27, 0x60, 0x1C, 0x1D}
    ensures Parse(info).MicE? ==> Parse(info).payload == info[1..]
    ensures Parse(info).Compressed? <==>
              info != [] && IsPositionType(info[0]) && BodyOf(info) != [] && !DigitOrBlank(BodyOf(info)[0])
    ensures Parse(info).Compressed? ==> Parse(info).body == BodyOf(info)
  {
    if info != [] && IsPositionType(info[0]) {
      var body := BodyOf(info);
      BodyReads(info);
      assert ([BANG_TYPE] + body)[1..] == body;
    }
  }

  lemma Latin1Append(s: seq<QChar>, t: seq<QChar>)
    ensures ToLatin1(s + t) == ToLatin1(s) + ToLatin1(t)
  {
  }

  lemma BuiltSymbols(lat: real, lon: real, table: QChar, code: QChar)
    requires Magnitude(lat) <= 90.0 && Magnitude(lon) <= 180.0
    ensures FieldsOf(lat, lon, 0, code) == FieldsOf(lat, lon, '/' as int, code)
    ensures FieldsOf(lat, lon, table, 0) == FieldsOf(lat, lon, table, '.' as int)
  {
  }

  /** Without symbols a report is built with a slash for the table and a dot for the code. */
  lemma BuiltDefaults(lat: real, lon: real, table: QChar, code: QChar, comment: seq<QChar>)
    requires Magnitude(lat) <= 90.0 && Magnitude(lon) <= 180.0
    ensures Build(lat, lon, 0, code, comment) == Build(lat, lon, '/' as int, code, comment)
    ensures Build(lat, lon, table, 0, comment) == Build(lat, lon, table, '.' as int, comment)
  {
    BuiltSymbols(lat, lon, table, code);
  }

  /** Of a comment the first 43 characters are sent, all of them if it has no more. */
  lemma BuiltComment(lat: real, lon: real, table: QChar, code: QChar, comment: seq<QChar>)
    requires Magnitude(lat) <= 90.0 && Magnitude(lon) <= 180.0
    ensures Build(lat, lon, table, code, comment)
         == Build(lat, lon, table, code, []) + ToLatin1(if |comment| <= 43 then comment else comment[..43])
  {
    var filled := Filled(FieldsOf(lat, lon, table, code));
    Unit(filled);
    Latin1Append(filled, Shortened(comment));
  }
}
