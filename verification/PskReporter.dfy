/** What the reception reporter puts in a datagram, and that a collector reads it back. */
module PskReporter {
  import opened Bytes
  import opened Ipfix
  import opened Options

  const PEN := 30351

  const RECEIVER_TEMPLATE_ID := 0x50E2

  const SENDER_TEMPLATE_ID := 0x50E3

  function Own(id: nat, length: nat): FieldSpec { FieldSpec(id, length, Some(PEN)) }

  /** Callsign, locator, software, antenna. */
  const RECEIVER: Template :=
    [Own(0x8002, VARIABLE), Own(0x8004, VARIABLE), Own(0x8008, VARIABLE), Own(0x8009, VARIABLE)]

  /** Callsign, locator, frequency, report, mode, time. */
  const SENDER: Template :=
    [Own(0x8001, VARIABLE), Own(0x8003, VARIABLE), Own(0x8005, 4), Own(0x8006, 1), Own(0x8007, VARIABLE),
     FieldSpec(150, 4, None)]

  datatype Spot = Spot(callsign: seq<byte>, grid: seq<byte>, mode: seq<byte>, snr: int, freq: nat, time: int)

  datatype Station = Station(callsign: seq<byte>, grid: seq<byte>, software: seq<byte>)

  // ---------------------------------------------------------------- one packet

  /** A qint8 as the byte it is sent as. */
  function SignedByte(x: int): byte { x % 0x100 }

  function StationRecord(s: Station): Record { [s.callsign, s.grid, s.software, []] }

  function SpotRecord(s: Spot): Record {
    [s.callsign, s.grid, U32(s.freq), [SignedByte(s.snr)], s.mode, U32(s.time)]
  }

  function SpotRecords(spots: seq<Spot>): seq<Record> {
    if spots == [] then [] else [SpotRecord(spots[0])] + SpotRecords(spots[1..])
  }

  function TemplatesBody(): seq<byte> {
    TemplateBytes(RECEIVER_TEMPLATE_ID, RECEIVER) + TemplateBytes(SENDER_TEMPLATE_ID, SENDER)
  }

  function StationBody(s: Station): seq<byte> { RecordsBytes(RECEIVER, [StationRecord(s)]) }

  function SpotsBody(spots: seq<Spot>): seq<byte> { RecordsBytes(SENDER, SpotRecords(spots)) }

  function Sets(s: Station, spots: seq<Spot>, withTemplates: bool): seq<byte> {
    (if withTemplates then SetBytes(TEMPLATE_SET, TemplatesBody()) else [])
    + SetBytes(RECEIVER_TEMPLATE_ID, StationBody(s))
    + (if spots != [] then SetBytes(SENDER_TEMPLATE_ID, SpotsBody(spots)) else [])
  }

  /** Everything a packet depends on. */
  datatype Draft = Draft(station: Station, spots: seq<Spot>, withTemplates: bool, now: int, sequence: nat, domain: nat)

  function Packet(d: Draft): seq<byte> {
    var sets := Sets(d.station, d.spots, d.withTemplates);
    U16(VERSION) + U16(HEADER + |sets|) + U32(d.now) + U32(d.sequence) + U32(d.domain) + sets
  }

  // ---------------------------------------------------------------- building it

  lemma PaddingEnds(n: nat, k: nat)
    requires k <= Padding(n)
    ensures (n + k) % 4 == 0 <==> k == Padding(n)
  {
  }

  lemma OneMoreZero(b: seq<byte>, k: nat)
    ensures b + Repeat(k, 0) + [0] == b + Repeat(k + 1, 0)
  {
  }

  method PadTo4(b: seq<byte>) returns (r: seq<byte>)
    ensures r == b + Repeat(Padding(|b|), 0)
  {
    r := b;
    ghost var k := 0;
    PaddingEnds(|b|, 0);
    while |r| % 4 != 0
      invariant k <= Padding(|b|) && |r| == |b| + k && r == b + Repeat(k, 0)
      invariant |r| % 4 == 0 <==> k == Padding(|b|)
      decreases Padding(|b|) - k
    {
      OneMoreZero(b, k);
      PaddingEnds(|b|, k + 1);
      r := r + [0];
      k := k + 1;
    }
  }

  function Patched(b: seq<byte>, pos: nat, v: nat): seq<byte>
    requires pos + 2 <= |b|
  {
    b[pos := v / 0x100 % 0x100][pos + 1 := v % 0x100]
  }

  lemma PatchLength(id: nat, v: nat, rest: seq<byte>)
    ensures Patched(U16(id) + U16(0) + rest, 2, v) == U16(id) + U16(v) + rest
  {
  }

  method EncodeVarField(data: seq<byte>) returns (field: seq<byte>)
    ensures field == VarField(data)
  {
    field := [];
    var n := |data|;
    if n < 255 {
      field := field + [n];
    } else {
      field := field + [255];
      field := field + U16(n);
    }
    field := field + data;
  }

  /** Closes a set: pads it and fills in its length. */
  method CloseSet(id: nat, body: seq<byte>) returns (set_: seq<byte>)
    ensures set_ == SetBytes(id, body)
  {
    set_ := PadTo4(U16(id) + U16(0) + body);
    ghost var inner := body + Repeat(Padding(|body|), 0);
    assert set_ == U16(id) + U16(0) + inner;
    PatchLength(id, |set_|, inner);
    set_ := Patched(set_, 2, |set_|);
    assert set_ == SetBytes(id, body);
  }

  lemma SpecsOne(spec: FieldSpec, t: Template)
    ensures SpecsBytes([spec] + t) == SpecBytes(spec) + SpecsBytes(t)
  {
    assert ([spec] + t)[1..] == t;
  }

  lemma ReceiverTemplate()
    ensures TemplateBytes(RECEIVER_TEMPLATE_ID, RECEIVER)
         == U16(RECEIVER_TEMPLATE_ID) + U16(4) + SpecBytes(Own(0x8002, VARIABLE)) + SpecBytes(Own(0x8004, VARIABLE))
            + SpecBytes(Own(0x8008, VARIABLE)) + SpecBytes(Own(0x8009, VARIABLE))
  {
    var d := [Own(0x8009, VARIABLE)];
    var c := [Own(0x8008, VARIABLE)] + d;
    var b := [Own(0x8004, VARIABLE)] + c;
    assert RECEIVER == [Own(0x8002, VARIABLE)] + b;
    assert d == [Own(0x8009, VARIABLE)] + [];
    SpecsOne(Own(0x8009, VARIABLE), []);
    SpecsOne(Own(0x8008, VARIABLE), d);
    SpecsOne(Own(0x8004, VARIABLE), c);
    SpecsOne(Own(0x8002, VARIABLE), b);
  }

  lemma SenderTemplate()
    ensures TemplateBytes(SENDER_TEMPLATE_ID, SENDER)
         == U16(SENDER_TEMPLATE_ID) + U16(6) + SpecBytes(Own(0x8001, VARIABLE)) + SpecBytes(Own(0x8003, VARIABLE))
            + SpecBytes(Own(0x8005, 4)) + SpecBytes(Own(0x8006, 1)) + SpecBytes(Own(0x8007, VARIABLE))
            + SpecBytes(FieldSpec(150, 4, None))
  {
    var f := [FieldSpec(150, 4, None)];
    var e := [Own(0x8007, VARIABLE)] + f;
    var d := [Own(0x8006, 1)] + e;
    var c := [Own(0x8005, 4)] + d;
    var b := [Own(0x8003, VARIABLE)] + c;
    assert SENDER == [Own(0x8001, VARIABLE)] + b;
    assert f == [FieldSpec(150, 4, None)] + [];
    SpecsOne(FieldSpec(150, 4, None), []);
    SpecsOne(Own(0x8007, VARIABLE), f);
    SpecsOne(Own(0x8006, 1), e);
    SpecsOne(Own(0x8005, 4), d);
    SpecsOne(Own(0x8003, VARIABLE), c);
    SpecsOne(Own(0x8001, VARIABLE), b);
  }

  method TemplateSet() returns (tset: seq<byte>)
    ensures tset == SetBytes(TEMPLATE_SET, TemplatesBody())
  {
    tset := U16(RECEIVER_TEMPLATE_ID) + U16(4);
    tset := tset + SpecBytes(Own(0x8002, VARIABLE));
    tset := tset + SpecBytes(Own(0x8004, VARIABLE));
    tset := tset + SpecBytes(Own(0x8008, VARIABLE));
    tset := tset + SpecBytes(Own(0x8009, VARIABLE));
    ReceiverTemplate();
    var sender := U16(SENDER_TEMPLATE_ID) + U16(6);
    sender := sender + SpecBytes(Own(0x8001, VARIABLE));
    sender := sender + SpecBytes(Own(0x8003, VARIABLE));
    sender := sender + SpecBytes(Own(0x8005, 4));
    sender := sender + SpecBytes(Own(0x8006, 1));
    sender := sender + SpecBytes(Own(0x8007, VARIABLE));
    sender := sender + SpecBytes(FieldSpec(150, 4, None));
    SenderTemplate();
    tset := CloseSet(TEMPLATE_SET, tset + sender);
  }

  lemma RecordOne(spec: FieldSpec, t: Template, field: seq<byte>, r: Record)
    ensures RecordBytes([spec] + t, [field] + r) == FieldBytes(spec, field) + RecordBytes(t, r)
  {
    assert ([spec] + t)[1..] == t && ([field] + r)[1..] == r;
  }

  lemma StationRecordBytes(s: Station)
    ensures RecordBytes(RECEIVER, StationRecord(s))
         == VarField(s.callsign) + VarField(s.grid) + VarField(s.software) + VarField([])
  {
    var t3 := [Own(0x8009, VARIABLE)];
    var t2 := [Own(0x8008, VARIABLE)] + t3;
    var t1 := [Own(0x8004, VARIABLE)] + t2;
    var r3: Record := [[]];
    var r2: Record := [s.software] + r3;
    var r1: Record := [s.grid] + r2;
    assert RECEIVER == [Own(0x8002, VARIABLE)] + t1 && StationRecord(s) == [s.callsign] + r1;
    assert t3 == [Own(0x8009, VARIABLE)] + [] && r3 == [[]] + [];
    RecordOne(Own(0x8002, VARIABLE), t1, s.callsign, r1);
    RecordOne(Own(0x8004, VARIABLE), t2, s.grid, r2);
    RecordOne(Own(0x8008, VARIABLE), t3, s.software, r3);
    RecordOne(Own(0x8009, VARIABLE), [], [], []);
    Unit(VarField([]));
    NestedFour(VarField(s.callsign), VarField(s.grid), VarField(s.software), VarField([]));
  }

  lemma StationBytes(s: Station)
    ensures StationBody(s) == VarField(s.callsign) + VarField(s.grid) + VarField(s.software) + VarField([])
  {
    StationRecordBytes(s);
    assert [StationRecord(s)][1..] == [];
    assert StationBody(s) == RecordBytes(RECEIVER, StationRecord(s)) + RecordsBytes(RECEIVER, []);
    Unit(RecordBytes(RECEIVER, StationRecord(s)));
  }

  lemma SpotBytes(s: Spot)
    ensures RecordBytes(SENDER, SpotRecord(s))
         == VarField(s.callsign) + VarField(s.grid) + U32(s.freq) + [SignedByte(s.snr)] + VarField(s.mode) + U32(s.time)
  {
    var t5 := [FieldSpec(150, 4, None)];
    var t4 := [Own(0x8007, VARIABLE)] + t5;
    var t3 := [Own(0x8006, 1)] + t4;
    var t2 := [Own(0x8005, 4)] + t3;
    var t1 := [Own(0x8003, VARIABLE)] + t2;
    var r5: Record := [U32(s.time)];
    var r4: Record := [s.mode] + r5;
    var r3: Record := [[SignedByte(s.snr)]] + r4;
    var r2: Record := [U32(s.freq)] + r3;
    var r1: Record := [s.grid] + r2;
    assert SENDER == [Own(0x8001, VARIABLE)] + t1 && SpotRecord(s) == [s.callsign] + r1;
    assert t5 == [FieldSpec(150, 4, None)] + [] && r5 == [U32(s.time)] + [];
    RecordOne(Own(0x8001, VARIABLE), t1, s.callsign, r1);
    RecordOne(Own(0x8003, VARIABLE), t2, s.grid, r2);
    RecordOne(Own(0x8005, 4), t3, U32(s.freq), r3);
    RecordOne(Own(0x8006, 1), t4, [SignedByte(s.snr)], r4);
    RecordOne(Own(0x8007, VARIABLE), t5, s.mode, r5);
    RecordOne(FieldSpec(150, 4, None), [], U32(s.time), []);
    Unit(U32(s.time));
    Nested(VarField(s.callsign), VarField(s.grid), U32(s.freq), [SignedByte(s.snr)], VarField(s.mode), U32(s.time));
  }

  method StationSet(s: Station) returns (rset: seq<byte>)
    ensures rset == SetBytes(RECEIVER_TEMPLATE_ID, StationBody(s))
  {
    var callsign := EncodeVarField(s.callsign);
    var grid := EncodeVarField(s.grid);
    var software := EncodeVarField(s.software);
    var antenna := EncodeVarField([]);
    StationBytes(s);
    rset := CloseSet(RECEIVER_TEMPLATE_ID, callsign + grid + software + antenna);
  }

  lemma SpotsCons(spots: seq<Spot>)
    requires spots != []
    ensures SpotsBody(spots) == RecordBytes(SENDER, SpotRecord(spots[0])) + SpotsBody(spots[1..])
  {
    assert SpotRecords(spots)[1..] == SpotRecords(spots[1..]);
  }

  lemma {:induction false} SpotsSnoc(spots: seq<Spot>, s: Spot)
    ensures SpotsBody(spots + [s]) == SpotsBody(spots) + RecordBytes(SENDER, SpotRecord(s))
  {
    var last := RecordBytes(SENDER, SpotRecord(s));
    if spots == [] {
      assert spots + [s] == [s] && [s][1..] == [];
      assert SpotRecords([s]) == [SpotRecord(s)] + [] == [SpotRecord(s)];
      assert [SpotRecord(s)][1..] == [];
      Unit(last);
    } else {
      SpotsSnoc(spots[1..], s);
      assert (spots + [s])[1..] == spots[1..] + [s];
      SpotsCons(spots);
      SpotsCons(spots + [s]);
      Assoc(RecordBytes(SENDER, SpotRecord(spots[0])), SpotsBody(spots[1..]), last);
    }
  }

  method EncodeSpot(s: Spot) returns (r: seq<byte>)
    ensures r == RecordBytes(SENDER, SpotRecord(s))
  {
    var callsign := EncodeVarField(s.callsign);
    var grid := EncodeVarField(s.grid);
    var mode := EncodeVarField(s.mode);
    SpotBytes(s);
    r := callsign + grid + U32(s.freq) + [SignedByte(s.snr)] + mode + U32(s.time);
  }

  lemma SpotsNext(spots: seq<Spot>, i: nat)
    requires i < |spots|
    ensures SpotsBody(spots[..i + 1]) == SpotsBody(spots[..i]) + RecordBytes(SENDER, SpotRecord(spots[i]))
  {
    PrefixNext(spots, i);
    SpotsSnoc(spots[..i], spots[i]);
  }

  method EncodeSpots(spots: seq<Spot>) returns (body: seq<byte>)
    ensures body == SpotsBody(spots)
  {
    body := [];
    PrefixEnds(spots);
    for i := 0 to |spots|
      invariant body == SpotsBody(spots[..i])
    {
      var record := EncodeSpot(spots[i]);
      SpotsNext(spots, i);
      body := body + record;
    }
  }

  method SpotSet(spots: seq<Spot>) returns (sset: seq<byte>)
    ensures sset == SetBytes(SENDER_TEMPLATE_ID, SpotsBody(spots))
  {
    var body := EncodeSpots(spots);
    sset := CloseSet(SENDER_TEMPLATE_ID, body);
  }

  lemma PatchMessage(length: nat, rest: seq<byte>)
    ensures Patched(U16(VERSION) + U16(0) + rest, 2, length) == U16(VERSION) + U16(length) + rest
  {
    PatchLength(VERSION, length, rest);
  }

  lemma PacketShape(d: Draft)
    ensures var sets := Sets(d.station, d.spots, d.withTemplates);
            Packet(d) == U16(VERSION) + U16(HEADER + |sets|) + (U32(d.now) + U32(d.sequence) + U32(d.domain) + sets)
  {
  }

  method BuildSets(d: Draft) returns (sets: seq<byte>)
    ensures sets == Sets(d.station, d.spots, d.withTemplates)
  {
    sets := [];
    if d.withTemplates {
      var tset := TemplateSet();
      sets := sets + tset;
    }
    var rset := StationSet(d.station);
    sets := sets + rset;
    if d.spots != [] {
      var sset := SpotSet(d.spots);
      sets := sets + sset;
    }
  }

  /** buildPacket. */
  method BuildPacket(d: Draft) returns (packet: seq<byte>)
    ensures packet == Packet(d)
  {
    var sets := BuildSets(d);
    var tail := U32(d.now) + U32(d.sequence) + U32(d.domain) + sets;
    packet := U16(VERSION) + U16(0) + tail;
    PatchMessage(|packet|, tail);
    packet := Patched(packet, 2, |packet|);
    PacketShape(d);
    assert |tail| == 12 + |sets|;
  }

  // ---------------------------------------------------------------- what a collector reads

  function SignedOf(b: byte): int { if b >= 0x80 then b - 0x100 else b }

  /** A spot as read from a record of the sender template. */
  function SpotOf(r: Record): Option<Spot> {
    if |r| == 6 && |r[2]| == 4 && |r[3]| == 1 && |r[5]| == 4
    then Some(Spot(r[0], r[1], r[4], SignedOf(r[3][0]), Read32(r[2]), Read32(r[5])))
    else None
  }

  predicate Encodable(s: Spot) { -128 <= s.snr <= 127 && s.freq < 0x1_0000_0000 && 0 <= s.time < 0x1_0000_0000 }

  lemma FourBytesFit(b: seq<byte>)
    requires |b| == 4
    ensures 0 <= Read32(b) < 0x1_0000_0000
  {
  }

  /** A number is what its four bytes read as exactly when it is an unsigned 32-bit one. */
  lemma FourBytes(x: int)
    ensures Read32(U32(x)) == x <==> 0 <= x < 0x1_0000_0000
  {
    FourBytesFit(U32(x));
    if x >= 0 {
      assert U32(x) + [] == U32(x);
      U32Reads(x, []);
    }
  }

  lemma OneByte(x: int)
    ensures SignedOf(SignedByte(x)) == x <==> -128 <= x <= 127
  {
  }

  lemma SpotFields(s: Spot)
    ensures SpotOf(SpotRecord(s))
         == Some(Spot(s.callsign, s.grid, s.mode, SignedOf(SignedByte(s.snr)),
                      Read32(U32(s.freq)), Read32(U32(s.time))))
  {
  }

  lemma SpotRecovered(s: Spot)
    ensures Encodable(s) <==> SpotOf(SpotRecord(s)) == Some(s)
  {
    FourBytes(s.freq);
    FourBytes(s.time);
    OneByte(s.snr);
    SpotFields(s);
  }

  function Known(known: map<nat, Template>, withTemplates: bool): map<nat, Template> {
    if withTemplates then known[RECEIVER_TEMPLATE_ID := RECEIVER][SENDER_TEMPLATE_ID := SENDER] else known
  }

  predicate Knows(known: map<nat, Template>) {
    && RECEIVER_TEMPLATE_ID in known && known[RECEIVER_TEMPLATE_ID] == RECEIVER
    && SENDER_TEMPLATE_ID in known && known[SENDER_TEMPLATE_ID] == SENDER
  }

  function Reports(s: Station, spots: seq<Spot>): seq<DataSet> {
    [DataSet(RECEIVER_TEMPLATE_ID, [StationRecord(s)])]
    + (if spots != [] then [DataSet(SENDER_TEMPLATE_ID, SpotRecords(spots))] else [])
  }

  lemma TemplatesRead(known: map<nat, Template>)
    ensures ReadTemplates(known, TemplatesBody() + Repeat(Padding(|TemplatesBody()|), 0)) == Some(Known(known, true))
  {
    var pad := Repeat(Padding(|TemplatesBody()|), 0);
    var one, two := TemplateBytes(RECEIVER_TEMPLATE_ID, RECEIVER), TemplateBytes(SENDER_TEMPLATE_ID, SENDER);
    Assoc(one, two, pad);
    TemplateReads(known, RECEIVER_TEMPLATE_ID, RECEIVER, two + pad);
    TemplateReads(known[RECEIVER_TEMPLATE_ID := RECEIVER], SENDER_TEMPLATE_ID, SENDER, pad);
  }

  lemma ShortestRecords()
    ensures MinLength(RECEIVER) == 4 && MinLength(SENDER) == 12
  {
    assert MinLength(RECEIVER[3..]) == 1;
    assert RECEIVER[2..][1..] == RECEIVER[3..] && RECEIVER[1..][1..] == RECEIVER[2..];
    assert MinLength(RECEIVER[2..]) == 2 && MinLength(RECEIVER[1..]) == 3;
    assert MinLength(SENDER[5..]) == 4;
    assert SENDER[4..][1..] == SENDER[5..] && SENDER[3..][1..] == SENDER[4..];
    assert SENDER[2..][1..] == SENDER[3..] && SENDER[1..][1..] == SENDER[2..];
    assert MinLength(SENDER[4..]) == 5 && MinLength(SENDER[3..]) == 6 && MinLength(SENDER[2..]) == 10;
    assert MinLength(SENDER[1..]) == 11;
  }

  lemma {:induction false} SpotRecordsAt(spots: seq<Spot>)
    ensures |SpotRecords(spots)| == |spots|
    ensures forall i :: 0 <= i < |spots| ==> SpotRecords(spots)[i] == SpotRecord(spots[i])
  {
    if spots != [] {
      SpotRecordsAt(spots[1..]);
    }
  }

  lemma {:induction false} FieldShorter(t: Template, r: Record, i: nat)
    requires i < |t| == |r|
    ensures |r[i]| <= |RecordBytes(t, r)|
  {
    if i > 0 {
      FieldShorter(t[1..], r[1..], i - 1);
    }
  }

  lemma {:induction false} RecordShorter(t: Template, rs: seq<Record>, i: nat)
    requires i < |rs|
    ensures |RecordBytes(t, rs[i])| <= |RecordsBytes(t, rs)|
  {
    if i > 0 {
      RecordShorter(t, rs[1..], i - 1);
    }
  }

  lemma StationFits(s: Station)
    requires |StationBody(s)| < 0x1_0000
    ensures Fits(RECEIVER, StationRecord(s))
  {
    var r := StationRecord(s);
    RecordShorter(RECEIVER, [r], 0);
    forall i | 0 <= i < 4
      ensures |r[i]| < 0x1_0000
    {
      FieldShorter(RECEIVER, r, i);
    }
  }

  lemma SpotsFit(spots: seq<Spot>)
    requires |SpotsBody(spots)| < 0x1_0000
    ensures forall i :: 0 <= i < |SpotRecords(spots)| ==> Fits(SENDER, SpotRecords(spots)[i])
  {
    var rs := SpotRecords(spots);
    SpotRecordsAt(spots);
    forall i | 0 <= i < |rs|
      ensures Fits(SENDER, rs[i])
    {
      RecordShorter(SENDER, rs, i);
      forall k | 0 <= k < 6
        ensures |rs[i][k]| < 0x1_0000
      {
        FieldShorter(SENDER, rs[i], k);
      }
    }
  }

  lemma StationSetReads(known: map<nat, Template>, s: Station, rest: seq<byte>)
    requires Knows(known) && SetLength(StationBody(s)) < 0x1_0000
    ensures ReadSets(known, SetBytes(RECEIVER_TEMPLATE_ID, StationBody(s)) + rest)
         == match ReadSets(known, rest)
            case None => None
            case Some(c) => Some(Content(c.known, [DataSet(RECEIVER_TEMPLATE_ID, [StationRecord(s)])] + c.sets))
  {
    StationFits(s);
    ShortestRecords();
    DataSetReads(known, RECEIVER_TEMPLATE_ID, [StationRecord(s)], rest);
  }

  lemma SpotSetReads(known: map<nat, Template>, spots: seq<Spot>)
    requires Knows(known) && SetLength(SpotsBody(spots)) < 0x1_0000
    ensures ReadSets(known, SetBytes(SENDER_TEMPLATE_ID, SpotsBody(spots)))
         == Some(Content(known, [DataSet(SENDER_TEMPLATE_ID, SpotRecords(spots))]))
  {
    SpotsFit(spots);
    ShortestRecords();
    Unit(SetBytes(SENDER_TEMPLATE_ID, SpotsBody(spots)));
    DataSetReads(known, SENDER_TEMPLATE_ID, SpotRecords(spots), []);
    Unit([DataSet(SENDER_TEMPLATE_ID, SpotRecords(spots))]);
  }

  lemma DataRead(known: map<nat, Template>, s: Station, spots: seq<Spot>)
    requires Knows(known) && |Sets(s, spots, false)| < 0x1_0000
    ensures ReadSets(known, Sets(s, spots, false)) == Some(Content(known, Reports(s, spots)))
  {
    var rset := SetBytes(RECEIVER_TEMPLATE_ID, StationBody(s));
    Unit(rset);
    if spots == [] {
      assert Sets(s, spots, false) == rset + [];
      StationSetReads(known, s, []);
    } else {
      var sset := SetBytes(SENDER_TEMPLATE_ID, SpotsBody(spots));
      assert Sets(s, spots, false) == rset + sset;
      StationSetReads(known, s, sset);
      SpotSetReads(known, spots);
    }
  }

  lemma SetsSplit(s: Station, spots: seq<Spot>)
    ensures Sets(s, spots, true) == SetBytes(TEMPLATE_SET, TemplatesBody()) + Sets(s, spots, false)
  {
    var rset := SetBytes(RECEIVER_TEMPLATE_ID, StationBody(s));
    Unit(rset);
    Assoc(SetBytes(TEMPLATE_SET, TemplatesBody()), rset,
          if spots != [] then SetBytes(SENDER_TEMPLATE_ID, SpotsBody(spots)) else []);
  }

  lemma SetsRead(known: map<nat, Template>, s: Station, spots: seq<Spot>, withTemplates: bool)
    requires withTemplates || Knows(known)
    requires |Sets(s, spots, withTemplates)| < 0x1_0000
    ensures ReadSets(known, Sets(s, spots, withTemplates))
         == Some(Content(Known(known, withTemplates), Reports(s, spots)))
  {
    if withTemplates {
      var tset := SetBytes(TEMPLATE_SET, TemplatesBody());
      SetsSplit(s, spots);
      TemplatesRead(known);
      TemplateSetReads(known, TemplatesBody(), Known(known, true), Sets(s, spots, false));
      DataRead(Known(known, true), s, spots);
    } else {
      DataRead(known, s, spots);
    }
  }

  lemma HeaderReads(d: Draft)
    requires |Packet(d)| < 0x1_0000 && d.now >= 0
    ensures var b := Packet(d);
            && |b| >= HEADER && Read16(b) == VERSION && Read16(b[2..]) == |b|
            && Read32(b[4..]) == d.now % 0x1_0000_0000 && Read32(b[8..]) == d.sequence % 0x1_0000_0000
            && Read32(b[12..]) == d.domain % 0x1_0000_0000
            && b[HEADER..] == Sets(d.station, d.spots, d.withTemplates)
  {
    var sets := Sets(d.station, d.spots, d.withTemplates);
    var b := Packet(d);
    var b12 := U32(d.domain) + sets;
    var b8 := U32(d.sequence) + b12;
    var b4 := U32(d.now) + b8;
    var b2 := U16(|b|) + b4;
    NestedFour(U32(d.now), U32(d.sequence), U32(d.domain), sets);
    PacketShape(d);
    Assoc(U16(VERSION), U16(|b|), b4);
    assert b == U16(VERSION) + b2;
    U16Reads(VERSION, b2);
    U16Reads(|b|, b4);
    U32Reads(d.now, b8);
    U32Reads(d.sequence, b12);
    U32Reads(d.domain, sets);
    assert b[4..] == b[2..][2..] && b[8..] == b[4..][4..] && b[12..] == b[8..][4..] && b[16..] == b[12..][4..];
  }

  /** A collector that knows the templates, or is sent them, reads exactly the station and every
      spot out of a packet of any number of spots. */
  lemma PacketReads(d: Draft, known: map<nat, Template>)
    requires |Packet(d)| < 0x1_0000 && d.now >= 0 && (d.withTemplates || Knows(known))
    ensures ReadMessage(known, Packet(d))
         == Some(Message(d.now % 0x1_0000_0000, d.sequence % 0x1_0000_0000, d.domain % 0x1_0000_0000,
                         Content(Known(known, d.withTemplates), Reports(d.station, d.spots))))
  {
    HeaderReads(d);
    SetsRead(known, d.station, d.spots, d.withTemplates);
  }

  lemma PaddedToFour(body: seq<byte>)
    ensures SetLength(body) % 4 == 0
  {
  }

  lemma SumOfFours(a: nat, b: nat, c: nat)
    requires a % 4 == 0 && b % 4 == 0 && c % 4 == 0
    ensures (a + b + c) % 4 == 0
  {
  }

  lemma SetsPadded(s: Station, spots: seq<Spot>, withTemplates: bool)
    ensures |Sets(s, spots, withTemplates)| % 4 == 0
  {
    PaddedToFour(TemplatesBody());
    PaddedToFour(StationBody(s));
    PaddedToFour(SpotsBody(spots));
    SumOfFours(if withTemplates then SetLength(TemplatesBody()) else 0, SetLength(StationBody(s)),
               if spots != [] then SetLength(SpotsBody(spots)) else 0);
  }

  lemma U16Exact(v: nat, rest: seq<byte>)
    ensures Read16(U16(v) + rest) == v <==> v < 0x1_0000
  {
    if v < 0x1_0000 {
      U16Reads(v, rest);
    }
  }

  lemma LengthField(length: nat, tail: seq<byte>)
    ensures Read16((U16(VERSION) + U16(length) + tail)[2..]) == length <==> length < 0x1_0000
  {
    Assoc(U16(VERSION), U16(length), tail);
    assert (U16(VERSION) + (U16(length) + tail))[2..] == U16(length) + tail;
    U16Exact(length, tail);
  }

  /** The header announces its own sixteen bytes and the sets, which are multiples of four; and it is
      right exactly when that fits its sixteen bits. */
  lemma LengthRightIffFits(d: Draft)
    ensures |Packet(d)| == HEADER + |Sets(d.station, d.spots, d.withTemplates)|
    ensures |Sets(d.station, d.spots, d.withTemplates)| % 4 == 0
    ensures Read16(Packet(d)[2..]) == |Packet(d)| <==> |Packet(d)| < 0x1_0000
  {
    var sets := Sets(d.station, d.spots, d.withTemplates);
    SetsPadded(d.station, d.spots, d.withTemplates);
    PacketShape(d);
    LengthField(HEADER + |sets|, U32(d.now) + U32(d.sequence) + U32(d.domain) + sets);
  }

  // ---------------------------------------------------------------- on the wire

  lemma SetNumber(id: nat, body: seq<byte>)
    requires id < 0x1_0000
    ensures |SetBytes(id, body)| >= 4 && SetBytes(id, body)[..2] == [id / 0x100, id % 0x100]
  {
  }

  lemma OwnBytes(id: nat, length: nat)
    ensures SpecBytes(Own(id, length))
         == [id / 0x100 % 0x100, id % 0x100, length / 0x100 % 0x100, length % 0x100, 0, 0, 0x76, 0x8F]
  {
    assert U32(PEN) == [0, 0, 0x76, 0x8F];
  }

  /** The templates, byte for byte: their numbers and field counts, and the elements of enterprise
      30351 (0x768F) with the lengths they have. */
  lemma TemplatesOnWire()
    ensures TemplateBytes(RECEIVER_TEMPLATE_ID, RECEIVER)
         == [0x50, 0xE2, 0, 4]
            + [0x80, 2, 0xFF, 0xFF, 0, 0, 0x76, 0x8F] + [0x80, 4, 0xFF, 0xFF, 0, 0, 0x76, 0x8F]
            + [0x80, 8, 0xFF, 0xFF, 0, 0, 0x76, 0x8F] + [0x80, 9, 0xFF, 0xFF, 0, 0, 0x76, 0x8F]
    ensures TemplateBytes(SENDER_TEMPLATE_ID, SENDER)
         == [0x50, 0xE3, 0, 6]
            + [0x80, 1, 0xFF, 0xFF, 0, 0, 0x76, 0x8F] + [0x80, 3, 0xFF, 0xFF, 0, 0, 0x76, 0x8F]
            + [0x80, 5, 0, 4, 0, 0, 0x76, 0x8F] + [0x80, 6, 0, 1, 0, 0, 0x76, 0x8F]
            + [0x80, 7, 0xFF, 0xFF, 0, 0, 0x76, 0x8F] + [0, 150, 0, 4]
  {
    ReceiverTemplate();
    SenderTemplate();
    OwnBytes(0x8001, VARIABLE);
    OwnBytes(0x8002, VARIABLE);
    OwnBytes(0x8003, VARIABLE);
    OwnBytes(0x8004, VARIABLE);
    OwnBytes(0x8005, 4);
    OwnBytes(0x8006, 1);
    OwnBytes(0x8007, VARIABLE);
    OwnBytes(0x8008, VARIABLE);
    OwnBytes(0x8009, VARIABLE);
    assert U16(RECEIVER_TEMPLATE_ID) + U16(4) == [0x50, 0xE2, 0, 4];
    assert U16(SENDER_TEMPLATE_ID) + U16(6) == [0x50, 0xE3, 0, 6];
    assert SpecBytes(FieldSpec(150, 4, None)) == [0, 150, 0, 4];
  }

  lemma PacketCut(d: Draft)
    ensures var p, sets := Packet(d), Sets(d.station, d.spots, d.withTemplates);
            |p| == 16 + |sets| && p[..2] == U16(VERSION) && p[16..] == sets
  {
    var head := U16(VERSION) + U16(HEADER + |Sets(d.station, d.spots, d.withTemplates)|) + U32(d.now)
                + U32(d.sequence) + U32(d.domain);
    assert Packet(d) == head + Sets(d.station, d.spots, d.withTemplates) && |head| == 16;
    assert head[..2] == U16(VERSION);
  }

  lemma FirstSet(s: Station, spots: seq<Spot>, withTemplates: bool)
    ensures var sets := Sets(s, spots, withTemplates);
            |sets| >= 4 && sets[..2] == if withTemplates then [0, 2] else [0x50, 0xE2]
  {
    SetNumber(TEMPLATE_SET, TemplatesBody());
    SetNumber(RECEIVER_TEMPLATE_ID, StationBody(s));
  }

  /** The header announces version 10, and behind its sixteen bytes stands the set of the templates,
      number 2, if they are sent, and else that of the station, 0x50E2. */
  lemma PacketNumbers(d: Draft)
    ensures var p := Packet(d);
            |p| >= 20 && p[..2] == [0, 10] && p[16..18] == if d.withTemplates then [0, 2] else [0x50, 0xE2]
  {
    PacketCut(d);
    FirstSet(d.station, d.spots, d.withTemplates);
    assert Packet(d)[16..18] == Packet(d)[16..][..2];
  }

  /** A field of up to 254 bytes has one byte of length in front, a longer one 255 and two. */
  lemma FieldOnWire(data: seq<byte>)
    ensures |data| <= 254 ==> VarField(data) == [|data|] + data
    ensures 255 <= |data| < 0x1_0000 ==> VarField(data) == [255, |data| / 0x100, |data| % 0x100] + data
  {
  }

  lemma RecordNext(spec: FieldSpec, t: Template, field: seq<byte>, r: Record)
    ensures RecordBytes([spec] + t, [field] + r) == FieldBytes(spec, field) + RecordBytes(t, r)
  {
    assert ([spec] + t)[1..] == t && ([field] + r)[1..] == r;
  }

  lemma SpotEndInOrder(s: Spot)
    ensures RecordBytes([Own(0x8006, 1)] + ([Own(0x8007, VARIABLE)] + [FieldSpec(150, 4, None)]),
                        [[SignedByte(s.snr)]] + ([s.mode] + [U32(s.time)]))
         == [SignedByte(s.snr)] + (VarField(s.mode) + U32(s.time))
  {
    var t5, r5 := [FieldSpec(150, 4, None)], [U32(s.time)];
    assert t5 == [FieldSpec(150, 4, None)] + [] && r5 == [U32(s.time)] + [];
    RecordNext(FieldSpec(150, 4, None), [], U32(s.time), []);
    RecordNext(Own(0x8007, VARIABLE), t5, s.mode, r5);
    RecordNext(Own(0x8006, 1), [Own(0x8007, VARIABLE)] + t5, [SignedByte(s.snr)], [s.mode] + r5);
  }

  lemma SpotFieldsInOrder(s: Spot)
    ensures RecordBytes(SENDER, SpotRecord(s))
         == VarField(s.callsign) + VarField(s.grid) + U32(s.freq) + [SignedByte(s.snr)] + VarField(s.mode) + U32(s.time)
  {
    var t3 := [Own(0x8006, 1)] + ([Own(0x8007, VARIABLE)] + [FieldSpec(150, 4, None)]);
    var r3 := [[SignedByte(s.snr)]] + ([s.mode] + [U32(s.time)]);
    var t2, r2 := [Own(0x8005, 4)] + t3, [U32(s.freq)] + r3;
    var t1, r1 := [Own(0x8003, VARIABLE)] + t2, [s.grid] + r2;
    assert SENDER == [Own(0x8001, VARIABLE)] + t1 && SpotRecord(s) == [s.callsign] + r1;
    SpotEndInOrder(s);
    RecordNext(Own(0x8005, 4), t3, U32(s.freq), r3);
    RecordNext(Own(0x8003, VARIABLE), t2, s.grid, r2);
    RecordNext(Own(0x8001, VARIABLE), t1, s.callsign, r1);
    Nested(VarField(s.callsign), VarField(s.grid), U32(s.freq), [SignedByte(s.snr)], VarField(s.mode), U32(s.time));
  }

  /** A spot's record byte for byte: callsign, locator, frequency, report, mode, time. */
  lemma SpotOnWire(s: Spot)
    requires |s.callsign| <= 254 && |s.grid| <= 254 && |s.mode| <= 254 && Encodable(s)
    ensures RecordBytes(SENDER, SpotRecord(s))
         == ([|s.callsign|] + s.callsign) + ([|s.grid|] + s.grid)
            + [s.freq / 0x100_0000, s.freq / 0x1_0000 % 0x100, s.freq / 0x100 % 0x100, s.freq % 0x100]
            + [if s.snr < 0 then 0x100 + s.snr else s.snr] + ([|s.mode|] + s.mode)
            + [s.time / 0x100_0000, s.time / 0x1_0000 % 0x100, s.time / 0x100 % 0x100, s.time % 0x100]
  {
    SpotFieldsInOrder(s);
    assert U32(s.freq)
        == [s.freq / 0x100_0000, s.freq / 0x1_0000 % 0x100, s.freq / 0x100 % 0x100, s.freq % 0x100];
    assert U32(s.time)
        == [s.time / 0x100_0000, s.time / 0x1_0000 % 0x100, s.time / 0x100 % 0x100, s.time % 0x100];
  }
}
