/** The YAPP wire format: frame builders, the byte-at-a-time framer, and the two
    inverse theorems that connect them. */
module YappFrames {
  import opened Bytes
  import opened QtText

  datatype Kind = SI | RR | RF | AF | AT | CA | HD | DT | EF | ET | CN

  datatype Frame = Frame(kind: Kind, data: seq<byte>)

  // ---------------------------------------------------------------- builders

  const ENQ: byte := 0x05
  const ACK: byte := 0x06
  const SOH: byte := 0x01
  const STX: byte := 0x02
  const ETX: byte := 0x03
  const EOT: byte := 0x04
  const CAN: byte := 0x18

  function BuildSI(): seq<byte> { [ENQ, 1] }
  function BuildRR(): seq<byte> { [ACK, 1] }
  function BuildRF(): seq<byte> { [ACK, 2] }
  function BuildAF(): seq<byte> { [ACK, 3] }
  function BuildAT(): seq<byte> { [ACK, 4] }
  function BuildEF(): seq<byte> { [ETX, 1] }
  function BuildET(): seq<byte> { [EOT, 1] }

  function Number(n: int): seq<byte> { if n < 0 then [45] + Decimal(-n) else Decimal(n) }

  function HeaderBody(name: seq<byte>, size: int): seq<byte> {
    name + [0] + Number(size) + [0]
  }

  /** The length byte is the body's length cut to eight bits; the source only asserts that it fits. */
  function BuildHD(name: seq<byte>, size: int): seq<byte> {
    [SOH, |HeaderBody(name, size)| % 256] + HeaderBody(name, size)
  }

  function BuildDT(chunk: seq<byte>): seq<byte>
    requires 0 < |chunk| <= 256
  {
    [STX, if |chunk| == 256 then 0 else |chunk|] + chunk
  }

  function BuildCN(reason: seq<byte>): seq<byte> {
    var body := if |reason| > 255 then reason[..255] else reason;
    [CAN, |body|] + body
  }

  /** What a frame of each kind may carry on the wire. */
  predicate WellFormed(f: Frame) {
    match f.kind
    case DT => 0 < |f.data| <= 256
    case HD => |f.data| <= 255
    case CN => |f.data| <= 255
    case _ => f.data == []
  }

  /** The length byte of a data frame: 0 stands for 256. */
  function LengthByte(n: nat): byte
    requires n <= 256
  {
    if n == 256 then 0 else n
  }

  /** The wire form of a frame, independent of which builder made it. */
  function Encode(f: Frame): seq<byte>
    requires WellFormed(f)
  {
    match f.kind
    case SI => [ENQ, 1]
    case RR => [ACK, 1]
    case RF => [ACK, 2]
    case AF => [ACK, 3]
    case AT => [ACK, 4]
    case CA => [ACK, 5]
    case EF => [ETX, 1]
    case ET => [EOT, 1]
    case HD => [SOH, |f.data|] + f.data
    case CN => [CAN, |f.data|] + f.data
    case DT => [STX, LengthByte(|f.data|)] + f.data
  }

  // ---------------------------------------------------------------- framer

  datatype Phase = Idle | AwaitSISig | AwaitACKSub | AwaitEFSig | AwaitETSig | AwaitLen | AwaitData

  datatype Framer = Framer(phase: Phase, pendingKind: Kind, remaining: int, buffer: seq<byte>)

  const NEW_FRAMER := Framer(Idle, HD, 0, [])

  /** What one input byte makes the framer do.  Noise is the stray lead byte and
      the byte after it, which the framer swallows together. */
  datatype Out = Quiet | Text(b: byte) | Dispatch(frame: Frame) | Noise(lead: byte, sub: byte)

  predicate IsLead(b: byte) { 1 <= b <= 6 || b == CAN }

  function IdleStep(p: Framer, b: byte): (Framer, Out) {
    if b == ENQ then (p.(phase := AwaitSISig), Quiet)
    else if b == ACK then (p.(phase := AwaitACKSub), Quiet)
    else if b == SOH then (p.(pendingKind := HD, phase := AwaitLen), Quiet)
    else if b == STX then (p.(pendingKind := DT, phase := AwaitLen), Quiet)
    else if b == ETX then (p.(phase := AwaitEFSig), Quiet)
    else if b == EOT then (p.(phase := AwaitETSig), Quiet)
    else if b == CAN then (p.(pendingKind := CN, phase := AwaitLen), Quiet)
    else (p, Text(b))
  }

  function Step(p: Framer, b: byte): (Framer, Out) {
    var idle := p.(phase := Idle);
    match p.phase
    case Idle => IdleStep(p, b)
    case AwaitSISig => (idle, if b == 1 then Dispatch(Frame(SI, [])) else Noise(ENQ, b))
    case AwaitACKSub =>
      (idle, if b == 1 then Dispatch(Frame(RR, []))
             else if b == 2 then Dispatch(Frame(RF, []))
             else if b == 3 then Dispatch(Frame(AF, []))
             else if b == 4 then Dispatch(Frame(AT, []))
             else if b == 5 then Dispatch(Frame(CA, []))
             else Noise(ACK, b))
    case AwaitEFSig => (idle, if b == 1 then Dispatch(Frame(EF, [])) else Noise(ETX, b))
    case AwaitETSig => (idle, if b == 1 then Dispatch(Frame(ET, [])) else Noise(EOT, b))
    case AwaitLen =>
      var len := if b == 0 && p.pendingKind == DT then 256 else b;
      if len == 0 then (idle, Dispatch(Frame(p.pendingKind, [])))
      else (p.(remaining := len, buffer := [], phase := AwaitData), Quiet)
    case AwaitData =>
      var q := p.(buffer := p.buffer + [b], remaining := p.remaining - 1);
      if q.remaining == 0 then (q.(phase := Idle), Dispatch(Frame(p.pendingKind, q.buffer)))
      else (q, Quiet)
  }

  function Emit(o: Out): seq<Out> { if o.Quiet? then [] else [o] }

  /** Where the framer is after a byte string. */
  function After(p: Framer, bytes: seq<byte>): Framer
    decreases |bytes|
  {
    if bytes == [] then p else After(Step(p, bytes[0]).0, bytes[1..])
  }

  /** What the framer does on the way. */
  function Outs(p: Framer, bytes: seq<byte>): seq<Out>
    decreases |bytes|
  {
    if bytes == [] then []
    else Emit(Step(p, bytes[0]).1) + Outs(Step(p, bytes[0]).0, bytes[1..])
  }

  /** The framer over a list of chunks, as the link delivers them. */
  function AfterChunks(p: Framer, chunks: seq<seq<byte>>): Framer
    decreases |chunks|
  {
    if chunks == [] then p else AfterChunks(After(p, chunks[0]), chunks[1..])
  }

  function OutsOfChunks(p: Framer, chunks: seq<seq<byte>>): seq<Out>
    decreases |chunks|
  {
    if chunks == [] then []
    else Outs(p, chunks[0]) + OutsOfChunks(After(p, chunks[0]), chunks[1..])
  }

  lemma {:induction false} FeedAppend(p: Framer, xs: seq<byte>, ys: seq<byte>)
    ensures After(p, xs + ys) == After(After(p, xs), ys)
    ensures Outs(p, xs + ys) == Outs(p, xs) + Outs(After(p, xs), ys)
    decreases |xs|
  {
    if xs == [] {
      assert xs + ys == ys;
    } else {
      assert (xs + ys)[1..] == xs[1..] + ys;
      FeedAppend(Step(p, xs[0]).0, xs[1..], ys);
    }
  }

  lemma FeedOne(p: Framer, b: byte)
    ensures After(p, [b]) == Step(p, b).0
    ensures Outs(p, [b]) == Emit(Step(p, b).1)
  {
    assert [b][1..] == [];
    assert Outs(Step(p, b).0, []) == [];
  }

  /** Chunking independence: where the link cuts the stream does not matter. */
  lemma {:induction false} ChunksDoNotMatter(p: Framer, chunks: seq<seq<byte>>)
    ensures AfterChunks(p, chunks) == After(p, Flatten(chunks))
    ensures OutsOfChunks(p, chunks) == Outs(p, Flatten(chunks))
    decreases |chunks|
  {
    if chunks != [] {
      ChunksDoNotMatter(After(p, chunks[0]), chunks[1..]);
      FeedAppend(p, chunks[0], Flatten(chunks[1..]));
    }
  }

  // ---------------------------------------------------------------- encode, then parse

  function LeadOf(k: Kind): byte { if k == HD then SOH else if k == DT then STX else CAN }

  lemma {:induction false} FeedBody(p: Framer, bytes: seq<byte>)
    requires p.phase == AwaitData && p.remaining == |bytes| > 0
    ensures After(p, bytes).phase == Idle
    ensures Outs(p, bytes) == [Dispatch(Frame(p.pendingKind, p.buffer + bytes))]
    decreases |bytes|
  {
    var (q, o) := Step(p, bytes[0]);
    assert p.buffer + bytes == p.buffer + [bytes[0]] + bytes[1..];
    if |bytes| == 1 {
      assert bytes == [bytes[0]];
      FeedOne(p, bytes[0]);
    } else {
      FeedBody(q, bytes[1..]);
    }
  }

  lemma FeedPair(p: Framer, b0: byte, b1: byte, rest: seq<byte>)
    ensures var p1 := Step(p, b0).0; var p2 := Step(p1, b1).0;
            && After(p, [b0, b1] + rest) == After(p2, rest)
            && Outs(p, [b0, b1] + rest) == Emit(Step(p, b0).1) + (Emit(Step(p1, b1).1) + Outs(p2, rest))
  {
    var bytes := [b0, b1] + rest;
    assert bytes[1..][0] == b1 && bytes[1..][1..] == rest;
  }

  lemma FeedShort(p: Framer, f: Frame)
    requires p.phase == Idle && WellFormed(f) && f.data == []
    ensures After(p, Encode(f)).phase == Idle && Outs(p, Encode(f)) == [Dispatch(f)]
  {
    var e := Encode(f);
    FeedPair(p, e[0], e[1], []);
    assert e == [e[0], e[1]] + [];
  }

  lemma FeedLong(p: Framer, f: Frame)
    requires p.phase == Idle && WellFormed(f) && f.data != []
    ensures After(p, Encode(f)).phase == Idle && Outs(p, Encode(f)) == [Dispatch(f)]
  {
    var lead := LeadOf(f.kind);
    var len := LengthByte(|f.data|);
    assert Encode(f) == [lead, len] + f.data;
    var p1 := Step(p, lead).0;
    assert p1.phase == AwaitLen && p1.pendingKind == f.kind && Step(p, lead).1 == Quiet;
    var p2 := Step(p1, len).0;
    assert p2.phase == AwaitData && p2.pendingKind == f.kind && p2.remaining == |f.data| && p2.buffer == [];
    FeedPair(p, lead, len, f.data);
    FeedBody(p2, f.data);
    assert [] + f.data == f.data;
  }

  /** A well-formed frame, met between frames, is dispatched whole and nothing else happens. */
  lemma FeedEncoded(p: Framer, f: Frame)
    requires p.phase == Idle && WellFormed(f)
    ensures After(p, Encode(f)).phase == Idle
    ensures Outs(p, Encode(f)) == [Dispatch(f)]
  {
    if f.data == [] {
      FeedShort(p, f);
    } else {
      FeedLong(p, f);
    }
  }

  /** Reads as exactly this frame. */
  predicate ReadsAs(bytes: seq<byte>, f: Frame) {
    After(NEW_FRAMER, bytes).phase == Idle && Outs(NEW_FRAMER, bytes) == [Dispatch(f)]
  }

  /** A cancel is understood for every reason, of which the first 255 bytes arrive. */
  lemma CancelUnderstood(reason: seq<byte>)
    ensures ReadsAs(BuildCN(reason), Frame(CN, if |reason| <= 255 then reason else reason[..255]))
  {
    var f := Frame(CN, if |reason| <= 255 then reason else reason[..255]);
    assert BuildCN(reason) == Encode(f);
    FeedEncoded(NEW_FRAMER, f);
  }

  /** So is every data block, the 256-byte one with its length byte of 0 included. */
  lemma DataUnderstood(chunk: seq<byte>)
    requires 0 < |chunk| <= 256
    ensures ReadsAs(BuildDT(chunk), Frame(DT, chunk))
  {
    FeedEncoded(NEW_FRAMER, Frame(DT, chunk));
  }

  lemma SignalsUnderstood()
    ensures ReadsAs(BuildSI(), Frame(SI, [])) && ReadsAs(BuildRR(), Frame(RR, [])) && ReadsAs(BuildRF(), Frame(RF, []))
    ensures ReadsAs(BuildAF(), Frame(AF, [])) && ReadsAs(BuildAT(), Frame(AT, [])) && ReadsAs(BuildEF(), Frame(EF, []))
    ensures ReadsAs(BuildET(), Frame(ET, []))
  {
    FeedEncoded(NEW_FRAMER, Frame(SI, []));
    FeedEncoded(NEW_FRAMER, Frame(RR, []));
    FeedEncoded(NEW_FRAMER, Frame(RF, []));
    FeedEncoded(NEW_FRAMER, Frame(AF, []));
    FeedEncoded(NEW_FRAMER, Frame(AT, []));
    FeedEncoded(NEW_FRAMER, Frame(EF, []));
    FeedEncoded(NEW_FRAMER, Frame(ET, []));
  }

  predicate IsClean(t: seq<byte>) { forall i :: 0 <= i < |t| ==> !IsLead(t[i]) }

  function TextOuts(t: seq<byte>): seq<Out> {
    if t == [] then [] else [Text(t[0])] + TextOuts(t[1..])
  }

  lemma {:induction false} FeedText(p: Framer, t: seq<byte>)
    requires p.phase == Idle && IsClean(t)
    ensures After(p, t) == p && Outs(p, t) == TextOuts(t)
  {
    if t != [] {
      FeedText(p, t[1..]);
    }
  }

  datatype Item = FrameItem(frame: Frame) | TextItem(text: seq<byte>)

  predicate CleanItem(x: Item) {
    if x.FrameItem? then WellFormed(x.frame) else IsClean(x.text)
  }

  function ItemBytes(x: Item): seq<byte>
    requires CleanItem(x)
  {
    if x.FrameItem? then Encode(x.frame) else x.text
  }

  function ItemOuts(x: Item): seq<Out> {
    if x.FrameItem? then [Dispatch(x.frame)] else TextOuts(x.text)
  }

  /** The byte string a station puts on the link for a list of items. */
  function Wire(items: seq<Item>): seq<byte>
    requires forall x :: x in items ==> CleanItem(x)
  {
    if items == [] then [] else ItemBytes(items[0]) + Wire(items[1..])
  }

  /** What the far end should see for those items. */
  function Meaning(items: seq<Item>): seq<Out> {
    if items == [] then [] else ItemOuts(items[0]) + Meaning(items[1..])
  }

  lemma {:induction false} FeedWire(p: Framer, items: seq<Item>)
    requires p.phase == Idle
    requires forall x :: x in items ==> CleanItem(x)
    ensures After(p, Wire(items)).phase == Idle
    ensures Outs(p, Wire(items)) == Meaning(items)
    decreases |items|
  {
    if items != [] {
      var x := items[0];
      assert x in items;
      if x.FrameItem? {
        FeedEncoded(p, x.frame);
      } else {
        FeedText(p, x.text);
      }
      FeedAppend(p, ItemBytes(x), Wire(items[1..]));
      FeedWire(After(p, ItemBytes(x)), items[1..]);
    }
  }

  /** Frames interleaved with ordinary text, cut into chunks anywhere, come out as
      exactly those frames and that text, in order. */
  lemma FramesAndTextSurviveChunking(items: seq<Item>, chunks: seq<seq<byte>>)
    requires forall x :: x in items ==> CleanItem(x)
    requires Flatten(chunks) == Wire(items)
    ensures AfterChunks(NEW_FRAMER, chunks).phase == Idle
    ensures OutsOfChunks(NEW_FRAMER, chunks) == Meaning(items)
  {
    ChunksDoNotMatter(NEW_FRAMER, chunks);
    FeedWire(NEW_FRAMER, items);
  }

  // ---------------------------------------------------------------- parse, then encode

  /** Framer states the parser can be in. */
  predicate Valid(p: Framer) {
    match p.phase
    case AwaitLen => p.pendingKind in {HD, DT, CN}
    case AwaitData =>
      p.pendingKind in {HD, DT, CN} && p.remaining > 0 &&
      |p.buffer| + p.remaining <= (if p.pendingKind == DT then 256 else 255)
    case _ => true
  }

  /** The bytes of the frame the framer is in the middle of. */
  function Held(p: Framer): seq<byte>
    requires Valid(p)
  {
    match p.phase
    case Idle => []
    case AwaitSISig => [ENQ]
    case AwaitACKSub => [ACK]
    case AwaitEFSig => [ETX]
    case AwaitETSig => [EOT]
    case AwaitLen => [LeadOf(p.pendingKind)]
    case AwaitData => [LeadOf(p.pendingKind), LengthByte(|p.buffer| + p.remaining)] + p.buffer
  }

  predicate RenderableOut(o: Out) { o.Dispatch? ==> WellFormed(o.frame) }

  function RenderOut(o: Out): seq<byte> {
    match o
    case Quiet => []
    case Text(b) => [b]
    case Dispatch(f) => if WellFormed(f) then Encode(f) else []
    case Noise(lead, sub) => [lead, sub]
  }

  function Render(os: seq<Out>): seq<byte> {
    if os == [] then [] else RenderOut(os[0]) + Render(os[1..])
  }

  lemma StepLossless(p: Framer, b: byte)
    requires Valid(p)
    ensures Valid(Step(p, b).0) && RenderableOut(Step(p, b).1)
    ensures RenderOut(Step(p, b).1) + Held(Step(p, b).0) == Held(p) + [b]
  {
    var (q, o) := Step(p, b);
    if p.phase == AwaitData {
      assert q.buffer == p.buffer + [b];
      if p.remaining == 1 {
        assert o == Dispatch(Frame(p.pendingKind, q.buffer));
        assert Held(q) == [];
        assert RenderOut(o) == Held(p) + [b];
      }
    }
  }

  /** Every frame dispatched is one that could have been sent. */
  lemma {:induction false} FeedRenderable(p: Framer, bytes: seq<byte>)
    requires Valid(p)
    ensures Valid(After(p, bytes)) && forall o :: o in Outs(p, bytes) ==> RenderableOut(o)
    decreases |bytes|
  {
    if bytes != [] {
      StepLossless(p, bytes[0]);
      FeedRenderable(Step(p, bytes[0]).0, bytes[1..]);
    }
  }

  lemma Regroup(a: seq<byte>, b: seq<byte>, c: seq<byte>, d: seq<byte>, e: seq<byte>, h: seq<byte>, x: byte)
    requires b + c == d + e && a + d == h + [x]
    ensures (a + b) + c == h + ([x] + e)
  {
    assert (a + b) + c == a + (b + c);
    assert a + (d + e) == (a + d) + e;
    assert (h + [x]) + e == h + ([x] + e);
  }

  lemma RenderEmit(o: Out, os: seq<Out>)
    ensures Render(Emit(o) + os) == RenderOut(o) + Render(os)
  {
    if o.Quiet? {
      assert Emit(o) + os == os;
    } else {
      assert (Emit(o) + os)[1..] == os;
    }
  }

  /** One byte before the rest. */
  lemma LosslessOn(o: Out, os: seq<Out>, c: seq<byte>, d: seq<byte>, e: seq<byte>, h: seq<byte>, x: byte)
    requires Render(os) + c == d + e && RenderOut(o) + d == h + [x]
    ensures Render(Emit(o) + os) + c == h + ([x] + e)
  {
    RenderEmit(o, os);
    Regroup(RenderOut(o), Render(os), c, d, e, h, x);
  }

  /** Nothing the framer reads is lost: re-encoding what it dispatched, displayed and
      swallowed, plus the frame it is still inside, gives back every byte, for every
      byte string whatever. */
  lemma {:induction false} FeedLossless(p: Framer, bytes: seq<byte>)
    requires Valid(p)
    ensures Valid(After(p, bytes))
    ensures Render(Outs(p, bytes)) + Held(After(p, bytes)) == Held(p) + bytes
    decreases |bytes|
  {
    if bytes != [] {
      var (q, o) := Step(p, bytes[0]);
      var rest := bytes[1..];
      StepLossless(p, bytes[0]);
      FeedLossless(q, rest);
      LosslessOn(o, Outs(q, rest), Held(After(q, rest)), Held(q), rest, Held(p), bytes[0]);
      assert bytes == [bytes[0]] + rest;
    }
  }

  /** So the parse is one-to-one: two byte strings that look the same to the framer are the same. */
  lemma ParseInjective(xs: seq<byte>, ys: seq<byte>)
    requires After(NEW_FRAMER, xs) == After(NEW_FRAMER, ys)
    requires Outs(NEW_FRAMER, xs) == Outs(NEW_FRAMER, ys)
    ensures xs == ys
  {
    FeedLossless(NEW_FRAMER, xs);
    FeedLossless(NEW_FRAMER, ys);
    assert [] + xs == xs && [] + ys == ys;
  }

  /** A built header is understood exactly when its body fits the length byte. */
  lemma HeaderUnderstoodIffShort(name: seq<byte>, size: int)
    ensures Outs(NEW_FRAMER, BuildHD(name, size)) == [Dispatch(Frame(HD, HeaderBody(name, size)))]
       <==> |HeaderBody(name, size)| <= 255
  {
    var body := HeaderBody(name, size);
    if |body| <= 255 {
      assert BuildHD(name, size) == Encode(Frame(HD, body));
      FeedEncoded(NEW_FRAMER, Frame(HD, body));
    } else {
      var os := Outs(NEW_FRAMER, BuildHD(name, size));
      FeedRenderable(NEW_FRAMER, BuildHD(name, size));
      if os != [] {
        assert os[0] in os;
        assert RenderableOut(os[0]);
      }
    }
  }

  // ---------------------------------------------------------------- on the wire

  /** The frames byte for byte. */
  lemma FramesOnWire(name: seq<byte>, size: nat, data: seq<byte>, reason: seq<byte>)
    requires 0 < |data| <= 256 && |name| + |Decimal(size)| + 2 <= 255 && |reason| <= 255
    ensures BuildSI() == [5, 1] && BuildEF() == [3, 1] && BuildET() == [4, 1]
    ensures BuildRR() == [6, 1] && BuildRF() == [6, 2] && BuildAF() == [6, 3] && BuildAT() == [6, 4]
    ensures BuildHD(name, size) == [1, |name| + |Decimal(size)| + 2] + name + [0] + Decimal(size) + [0]
    ensures BuildDT(data) == [2, |data| % 256] + data
    ensures BuildCN(reason) == [0x18, |reason|] + reason
  {
    var body := HeaderBody(name, size);
    assert Number(size) == Decimal(size);
    assert body == name + [0] + Decimal(size) + [0];
    assert |body| == |name| + |Decimal(size)| + 2;
  }
}
