/** IPFIX messages (RFC 5101): how records, sets and templates are laid out, and a reader that
    knows nothing of the writer but the templates. */
module Ipfix {
  import opened Bytes
  import opened Options

  /** A field specifier: an element, its length, and for enterprise elements the enterprise. */
  datatype FieldSpec = FieldSpec(id: nat, length: nat, enterprise: Option<nat>)

  type Template = seq<FieldSpec>

  /** The contents of a record's fields, in order. */
  type Record = seq<seq<byte>>

  const VARIABLE := 0xFFFF

  const TEMPLATE_SET := 2

  const ENTERPRISE_BIT := 0x8000

  // ---------------------------------------------------------------- writing

  function U16(v: int): (r: seq<byte>)
    ensures |r| == 2
  {
    [v / 0x100 % 0x100, v % 0x100]
  }

  function U32(v: int): (r: seq<byte>)
    ensures |r| == 4
  {
    [v / 0x100_0000 % 0x100, v / 0x1_0000 % 0x100, v / 0x100 % 0x100, v % 0x100]
  }

  /** Section 7: one byte of length, or three. */
  function VarField(data: seq<byte>): seq<byte> {
    (if |data| < 255 then [|data|] else [255] + U16(|data|)) + data
  }

  function FieldBytes(spec: FieldSpec, data: seq<byte>): seq<byte> {
    if spec.length == VARIABLE then VarField(data) else data
  }

  function RecordBytes(t: Template, r: Record): seq<byte> {
    if t == [] || r == [] then [] else FieldBytes(t[0], r[0]) + RecordBytes(t[1..], r[1..])
  }

  function RecordsBytes(t: Template, rs: seq<Record>): seq<byte> {
    if rs == [] then [] else RecordBytes(t, rs[0]) + RecordsBytes(t, rs[1..])
  }

  function SpecBytes(spec: FieldSpec): seq<byte> {
    U16(spec.id) + U16(spec.length) + (if spec.enterprise.Some? then U32(spec.enterprise.value) else [])
  }

  function SpecsBytes(t: Template): seq<byte> {
    if t == [] then [] else SpecBytes(t[0]) + SpecsBytes(t[1..])
  }

  function TemplateBytes(id: nat, t: Template): seq<byte> {
    U16(id) + U16(|t|) + SpecsBytes(t)
  }

  /** Up to the next multiple of four. */
  function Padding(n: nat): nat { if n % 4 == 0 then 0 else 4 - n % 4 }

  function SetLength(body: seq<byte>): nat { 4 + |body| + Padding(|body|) }

  /** Section 3.3: a set header, the records, and padding. */
  function SetBytes(id: nat, body: seq<byte>): (r: seq<byte>)
    ensures |r| == SetLength(body)
  {
    U16(id) + U16(SetLength(body)) + body + Repeat(Padding(|body|), 0)
  }

  // ---------------------------------------------------------------- reading

  datatype Parsed<T> = Ok(value: T, rest: seq<byte>) | Bad

  function Read16(b: seq<byte>): nat
    requires |b| >= 2
  {
    0x100 * (b[0] as int) + b[1]
  }

  function Read32(b: seq<byte>): nat
    requires |b| >= 4
  {
    0x100_0000 * (b[0] as int) + 0x1_0000 * (b[1] as int) + 0x100 * (b[2] as int) + b[3]
  }

  function Take(n: nat, b: seq<byte>): Parsed<seq<byte>> {
    if n <= |b| then Ok(b[..n], b[n..]) else Bad
  }

  function ReadField(spec: FieldSpec, b: seq<byte>): (r: Parsed<seq<byte>>)
    ensures r.Ok? ==> |r.rest| + (if spec.length == VARIABLE then 1 else spec.length) <= |b|
  {
    if spec.length != VARIABLE then Take(spec.length, b)
    else if |b| < 1 then Bad
    else if b[0] < 255 then Take(b[0], b[1..])
    else if |b| < 3 then Bad
    else Take(Read16(b[1..]), b[3..])
  }

  function MinLength(t: Template): nat {
    if t == [] then 0 else (if t[0].length == VARIABLE then 1 else t[0].length) + MinLength(t[1..])
  }

  function ReadRecord(t: Template, b: seq<byte>): (r: Parsed<Record>)
    ensures r.Ok? ==> |r.rest| + MinLength(t) <= |b|
  {
    if t == [] then Ok([], b)
    else
      match ReadField(t[0], b)
      case Bad => Bad
      case Ok(field, rest) =>
        match ReadRecord(t[1..], rest)
        case Bad => Bad
        case Ok(fields, end) => Ok([field] + fields, end)
  }

  /** Records until what is left is too short for one: that is padding (section 3.3.1). */
  function ReadRecords(t: Template, b: seq<byte>): Option<seq<Record>>
    decreases |b|
  {
    if |b| < MinLength(t) || MinLength(t) == 0 then Some([])
    else
      match ReadRecord(t, b)
      case Bad => None
      case Ok(record, rest) =>
        match ReadRecords(t, rest)
        case None => None
        case Some(records) => Some([record] + records)
  }

  function ReadSpec(b: seq<byte>): Parsed<FieldSpec> {
    if |b| < 4 then Bad
    else
      var id, length := Read16(b), Read16(b[2..]);
      if id < ENTERPRISE_BIT then Ok(FieldSpec(id, length, None), b[4..])
      else if |b| < 8 then Bad
      else Ok(FieldSpec(id, length, Some(Read32(b[4..]))), b[8..])
  }

  function ReadSpecs(n: nat, b: seq<byte>): Parsed<Template> {
    if n == 0 then Ok([], b)
    else
      match ReadSpec(b)
      case Bad => Bad
      case Ok(spec, rest) =>
        match ReadSpecs(n - 1, rest)
        case Bad => Bad
        case Ok(specs, end) => Ok([spec] + specs, end)
  }

  lemma {:induction false} SpecsShrink(n: nat, b: seq<byte>)
    ensures ReadSpecs(n, b).Ok? ==> |ReadSpecs(n, b).rest| <= |b|
  {
    if n > 0 && ReadSpec(b).Ok? {
      SpecsShrink(n - 1, ReadSpec(b).rest);
    }
  }

  /** Templates until what is left is too short for one; what they define is added to what is known. */
  function ReadTemplates(known: map<nat, Template>, b: seq<byte>): Option<map<nat, Template>>
    decreases |b|
  {
    if |b| < 4 then Some(known)
    else
      SpecsShrink(Read16(b[2..]), b[4..]);
      match ReadSpecs(Read16(b[2..]), b[4..])
      case Bad => None
      case Ok(t, rest) => ReadTemplates(known[Read16(b) := t], rest)
  }

  datatype DataSet = DataSet(id: nat, records: seq<Record>)

  datatype Content = Content(known: map<nat, Template>, sets: seq<DataSet>)

  function ReadSets(known: map<nat, Template>, b: seq<byte>): Option<Content>
    decreases |b|
  {
    if b == [] then Some(Content(known, []))
    else if |b| < 4 || Read16(b[2..]) < 4 || Read16(b[2..]) > |b| then None
    else
      var id, length := Read16(b), Read16(b[2..]);
      if id == TEMPLATE_SET then
        match ReadTemplates(known, b[4..length])
        case None => None
        case Some(more) => ReadSets(more, b[length..])
      else if id !in known then None
      else
        match ReadRecords(known[id], b[4..length])
        case None => None
        case Some(records) =>
          match ReadSets(known, b[length..])
          case None => None
          case Some(content) => Some(Content(content.known, [DataSet(id, records)] + content.sets))
  }

  const VERSION := 10

  const HEADER := 16

  datatype Message = Message(exportTime: nat, sequence: nat, domain: nat, content: Content)

  /** Section 3.1: the message header, then sets up to the length it announces. */
  function ReadMessage(known: map<nat, Template>, b: seq<byte>): Option<Message> {
    if |b| < HEADER || Read16(b) != VERSION || Read16(b[2..]) != |b| then None
    else
      match ReadSets(known, b[HEADER..])
      case None => None
      case Some(content) => Some(Message(Read32(b[4..]), Read32(b[8..]), Read32(b[12..]), content))
  }

  // ---------------------------------------------------------------- what is written is read

  lemma U16Reads(v: nat, rest: seq<byte>)
    requires v < 0x1_0000
    ensures Read16(U16(v) + rest) == v && (U16(v) + rest)[2..] == rest
  {
  }

  lemma U32Reads(v: nat, rest: seq<byte>)
    ensures Read32(U32(v) + rest) == v % 0x1_0000_0000 && (U32(v) + rest)[4..] == rest
  {
    var q1, q2, q3 := v / 0x100, v / 0x1_0000, v / 0x100_0000;
    assert q2 == q1 / 0x100 && q3 == q2 / 0x100 && v / 0x1_0000_0000 == q3 / 0x100;
    var b := U32(v) + rest;
    assert v == 0x100 * q1 + b[3] && q1 == 0x100 * q2 + b[2] && q2 == 0x100 * q3 + b[1];
  }

  lemma TakeReads(data: seq<byte>, rest: seq<byte>)
    ensures Take(|data|, data + rest) == Ok(data, rest)
  {
  }

  lemma VarFieldReads(spec: FieldSpec, data: seq<byte>, rest: seq<byte>)
    requires spec.length == VARIABLE && |data| < 0x1_0000
    ensures ReadField(spec, VarField(data) + rest) == Ok(data, rest)
  {
    var b := VarField(data) + rest;
    if |data| < 255 {
      assert b[1..] == data + rest;
    } else {
      U16Reads(|data|, data + rest);
      assert b == [255] + (U16(|data|) + (data + rest));
      assert b[1..] == U16(|data|) + (data + rest);
      assert b[3..] == b[1..][2..] == data + rest;
    }
    TakeReads(data, rest);
  }

  /** Contents that fit a template. */
  predicate Fits(t: Template, r: Record) {
    |t| == |r|
    && forall i :: 0 <= i < |t| ==> if t[i].length == VARIABLE then |r[i]| < 0x1_0000 else |r[i]| == t[i].length
  }

  lemma {:induction false} RecordReads(t: Template, r: Record, rest: seq<byte>)
    requires Fits(t, r)
    ensures ReadRecord(t, RecordBytes(t, r) + rest) == Ok(r, rest)
  {
    if t == [] {
      assert RecordBytes(t, r) + rest == rest;
    } else {
      var tail := RecordBytes(t[1..], r[1..]) + rest;
      Assoc(FieldBytes(t[0], r[0]), RecordBytes(t[1..], r[1..]), rest);
      if t[0].length == VARIABLE {
        VarFieldReads(t[0], r[0], tail);
      } else {
        TakeReads(r[0], tail);
      }
      RecordReads(t[1..], r[1..], rest);
      assert r == [r[0]] + r[1..];
    }
  }

  lemma {:induction false} RecordLong(t: Template, r: Record)
    requires Fits(t, r)
    ensures |RecordBytes(t, r)| >= MinLength(t)
  {
    if t != [] {
      RecordLong(t[1..], r[1..]);
    }
  }

  lemma FirstRecordRead(t: Template, r: Record, tail: seq<byte>, rs: seq<Record>)
    requires Fits(t, r) && MinLength(t) > 0 && ReadRecords(t, tail) == Some(rs)
    ensures ReadRecords(t, RecordBytes(t, r) + tail) == Some([r] + rs)
  {
    RecordReads(t, r, tail);
    RecordLong(t, r);
  }

  /** Any number of records, followed by less than a shortest record, read back as they were. */
  lemma {:induction false} RecordsRead(t: Template, rs: seq<Record>, pad: seq<byte>)
    requires forall i :: 0 <= i < |rs| ==> Fits(t, rs[i])
    requires |pad| < MinLength(t)
    ensures ReadRecords(t, RecordsBytes(t, rs) + pad) == Some(rs)
  {
    if rs == [] {
      assert RecordsBytes(t, rs) + pad == pad;
    } else {
      var tail := RecordsBytes(t, rs[1..]) + pad;
      Assoc(RecordBytes(t, rs[0]), RecordsBytes(t, rs[1..]), pad);
      RecordsRead(t, rs[1..], pad);
      FirstRecordRead(t, rs[0], tail, rs[1..]);
      assert rs == [rs[0]] + rs[1..];
    }
  }

  predicate ProperSpec(spec: FieldSpec) {
    && spec.id < 0x1_0000 && spec.length < 0x1_0000
    && (spec.enterprise.Some? <==> spec.id >= ENTERPRISE_BIT)
    && (spec.enterprise.Some? ==> spec.enterprise.value < 0x1_0000_0000)
  }

  predicate Proper(t: Template) { |t| < 0x1_0000 && forall i :: 0 <= i < |t| ==> ProperSpec(t[i]) }

  lemma SpecReads(spec: FieldSpec, rest: seq<byte>)
    requires ProperSpec(spec)
    ensures ReadSpec(SpecBytes(spec) + rest) == Ok(spec, rest)
  {
    var e := if spec.enterprise.Some? then U32(spec.enterprise.value) else [];
    var b := SpecBytes(spec) + rest;
    assert b == U16(spec.id) + (U16(spec.length) + (e + rest));
    U16Reads(spec.id, U16(spec.length) + (e + rest));
    U16Reads(spec.length, e + rest);
    assert b[4..] == b[2..][2..] == e + rest;
    if spec.enterprise.Some? {
      U32Reads(spec.enterprise.value, rest);
      assert b[8..] == b[4..][4..] == rest;
    } else {
      assert b[4..] == rest;
    }
  }

  lemma {:induction false} SpecsRead(t: Template, rest: seq<byte>)
    requires Proper(t)
    ensures ReadSpecs(|t|, SpecsBytes(t) + rest) == Ok(t, rest)
  {
    if t == [] {
      assert SpecsBytes(t) + rest == rest;
    } else {
      Assoc(SpecBytes(t[0]), SpecsBytes(t[1..]), rest);
      SpecReads(t[0], SpecsBytes(t[1..]) + rest);
      SpecsRead(t[1..], rest);
      assert t == [t[0]] + t[1..];
    }
  }

  lemma TemplateReads(known: map<nat, Template>, id: nat, t: Template, rest: seq<byte>)
    requires Proper(t) && id < 0x1_0000
    ensures ReadTemplates(known, TemplateBytes(id, t) + rest) == ReadTemplates(known[id := t], rest)
  {
    var b := TemplateBytes(id, t) + rest;
    assert b == U16(id) + (U16(|t|) + (SpecsBytes(t) + rest));
    U16Reads(id, U16(|t|) + (SpecsBytes(t) + rest));
    U16Reads(|t|, SpecsBytes(t) + rest);
    assert b[4..] == b[2..][2..] == SpecsBytes(t) + rest;
    SpecsRead(t, rest);
  }

  /** A set in front of others is cut out exactly, padding included. */
  lemma SetCut(id: nat, body: seq<byte>, rest: seq<byte>)
    requires id < 0x1_0000 && SetLength(body) < 0x1_0000
    ensures var b := SetBytes(id, body) + rest; var length := SetLength(body);
            && |b| >= length && Read16(b) == id && Read16(b[2..]) == length
            && b[4..length] == body + Repeat(Padding(|body|), 0) && b[length..] == rest
  {
    var inner := body + Repeat(Padding(|body|), 0);
    var b := SetBytes(id, body) + rest;
    assert b == U16(id) + (U16(SetLength(body)) + (inner + rest));
    U16Reads(id, U16(SetLength(body)) + (inner + rest));
    U16Reads(SetLength(body), inner + rest);
    assert b[4..] == b[2..][2..] == inner + rest;
    assert b[4..SetLength(body)] == b[4..][..|inner|] == inner;
    assert b[SetLength(body)..] == b[4..][|inner|..] == rest;
  }

  lemma DataSetReads(known: map<nat, Template>, id: nat, rs: seq<Record>, rest: seq<byte>)
    requires id in known && id != TEMPLATE_SET && id < 0x1_0000 && MinLength(known[id]) >= 4
    requires forall i :: 0 <= i < |rs| ==> Fits(known[id], rs[i])
    requires SetLength(RecordsBytes(known[id], rs)) < 0x1_0000
    ensures ReadSets(known, SetBytes(id, RecordsBytes(known[id], rs)) + rest)
         == match ReadSets(known, rest)
            case None => None
            case Some(content) => Some(Content(content.known, [DataSet(id, rs)] + content.sets))
  {
    var body := RecordsBytes(known[id], rs);
    SetCut(id, body, rest);
    RecordsRead(known[id], rs, Repeat(Padding(|body|), 0));
  }

  lemma TemplateSetReads(known: map<nat, Template>, body: seq<byte>, more: map<nat, Template>, rest: seq<byte>)
    requires SetLength(body) < 0x1_0000
    requires ReadTemplates(known, body + Repeat(Padding(|body|), 0)) == Some(more)
    ensures ReadSets(known, SetBytes(TEMPLATE_SET, body) + rest) == ReadSets(more, rest)
  {
    SetCut(TEMPLATE_SET, body, rest);
  }
}
