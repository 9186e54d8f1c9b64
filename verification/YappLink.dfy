/** Two stations running the transfer code over a link that keeps bytes in order.  In every run
    without aborts and timer expiries, a file reported as sent has been delivered by the peer,
    name and bytes, exactly once and in order. */
module YappLink {
  import opened Bytes
  import opened YappFrames
  import opened YappSession

  /** Each session's out is the channel to the other one. */
  datatype World = World(a: Session, b: Session)

  datatype Action =
    | Offer(file: File)
    | AcceptOffer
    | RejectOffer
    | Burst
    | Type(text: seq<byte>)
    | Deliver(n: nat, paclen: int)

  datatype Event = Event(byA: bool, action: Action)

  function Swap(w: World): World { World(w.b, w.a) }

  /** What an action of the first station does.  Deliver hands it the next n bytes of its peer's
      channel as one chunk. */
  function Act(w: World, act: Action): World {
    match act
    case Offer(file) => w.(a := SendFile(w.a, file))
    case AcceptOffer => w.(a := Accept(w.a))
    case RejectOffer => w.(a := Reject(w.a))
    case Burst => w.(a := TxReady(w.a))
    case Type(text) => w.(a := Send(w.a, text))
    case Deliver(n, paclen) =>
      var k := if n < |w.b.out| then n else |w.b.out|;
      World(Receive(w.a, w.b.out[..k], paclen), w.b.(out := w.b.out[k..]))
  }

  function Happen(w: World, e: Event): World {
    if e.byA then Act(w, e.action) else Swap(Act(Swap(w), e.action))
  }

  function Run(events: seq<Event>): World {
    if events == [] then World(NEW_SESSION, NEW_SESSION)
    else Happen(Run(events[..|events| - 1]), events[|events| - 1])
  }

  /** A file a header can announce. */
  predicate Sendable(f: File) {
    0 !in f.name && |HeaderBody(f.name, |f.data|)| <= 255 && |f.data| < 0x8000_0000_0000_0000
  }

  predicate Allowed(act: Action) {
    match act
    case Offer(file) => Sendable(file)
    case Type(text) => IsClean(text)
    case _ => true
  }

  // ---------------------------------------------------------------- what the user is told

  function Delivered(ns: seq<Notice>): seq<File> {
    if ns == [] then []
    else Delivered(ns[..|ns| - 1])
         + (match ns[|ns| - 1] case FileReceived(name, bytes) => [File(name, bytes)] case _ => [])
  }

  function Reported(ns: seq<Notice>): seq<(seq<byte>, int)> {
    if ns == [] then []
    else Reported(ns[..|ns| - 1])
         + (match ns[|ns| - 1] case FileSent(name, total) => [(name, total)] case _ => [])
  }

  lemma Told(ns: seq<Notice>, n: Notice)
    ensures Delivered(ns + [n])
         == Delivered(ns) + (match n case FileReceived(name, bytes) => [File(name, bytes)] case _ => [])
    ensures Reported(ns + [n]) == Reported(ns) + (match n case FileSent(name, total) => [(name, total)] case _ => [])
  {
    assert (ns + [n])[..|ns|] == ns;
  }

  /** The reports that go with a list of files. */
  function Receipts(files: seq<File>): seq<(seq<byte>, int)> {
    if files == [] then []
    else Receipts(files[..|files| - 1]) + [(files[|files| - 1].name, |files[|files| - 1].data|)]
  }

  lemma ReceiptsAppend(files: seq<File>, f: File)
    ensures Receipts(files + [f]) == Receipts(files) + [(f.name, |f.data|)]
  {
    assert (files + [f])[..|files|] == files;
  }

  // ---------------------------------------------------------------- frames in flight

  function Dispatched(os: seq<Out>): seq<Frame> {
    if os == [] then []
    else (if os[0].Dispatch? then [os[0].frame] else []) + Dispatched(os[1..])
  }

  lemma {:induction false} DispatchedAppend(xs: seq<Out>, ys: seq<Out>)
    ensures Dispatched(xs + ys) == Dispatched(xs) + Dispatched(ys)
  {
    if xs == [] {
      assert xs + ys == ys;
    } else {
      assert (xs + ys)[1..] == xs[1..] + ys;
      DispatchedAppend(xs[1..], ys);
      Assoc(if xs[0].Dispatch? then [xs[0].frame] else [], Dispatched(xs[1..]), Dispatched(ys));
    }
  }

  function Decoded(bytes: seq<byte>): seq<Frame> { Dispatched(Outs(NEW_FRAMER, bytes)) }

  function Queued(frames: seq<seq<byte>>): seq<Frame> {
    if frames == [] then [] else Decoded(frames[0]) + Queued(frames[1..])
  }

  /** Frames x has put, or will put, on the channel that y has not seen yet. */
  function Coming(x: Session, y: Session): seq<Frame> {
    Dispatched(Outs(y.framer, x.out)) + Queued(x.xfer.pendingFrames)
  }

  /** The channel ends between two frames. */
  predicate Whole(x: Session, y: Session) { After(y.framer, x.out).phase == Idle }

  predicate Equivalent(p: Framer, q: Framer) {
    p.phase == q.phase
    && (p.phase in {AwaitLen, AwaitData} ==> p.pendingKind == q.pendingKind)
    && (p.phase == AwaitData ==> p.remaining == q.remaining && p.buffer == q.buffer)
  }

  lemma {:induction false} EquivalentFeed(p: Framer, q: Framer, bytes: seq<byte>)
    requires Equivalent(p, q)
    ensures Outs(p, bytes) == Outs(q, bytes) && Equivalent(After(p, bytes), After(q, bytes))
    decreases |bytes|
  {
    if bytes != [] {
      EquivalentFeed(Step(p, bytes[0]).0, Step(q, bytes[0]).0, bytes[1..]);
    }
  }

  /** Bytes that start between two frames mean the same on any such channel. */
  lemma ChannelAppend(x: Session, y: Session, bytes: seq<byte>)
    requires Whole(x, y)
    ensures Dispatched(Outs(y.framer, x.out + bytes)) == Dispatched(Outs(y.framer, x.out)) + Decoded(bytes)
    ensures After(y.framer, x.out + bytes).phase == After(NEW_FRAMER, bytes).phase
  {
    FeedAppend(y.framer, x.out, bytes);
    DispatchedAppend(Outs(y.framer, x.out), Outs(After(y.framer, x.out), bytes));
    EquivalentFeed(After(y.framer, x.out), NEW_FRAMER, bytes);
  }

  lemma DecodedFrame(f: Frame)
    requires WellFormed(f)
    ensures Decoded(Encode(f)) == [f] && After(NEW_FRAMER, Encode(f)).phase == Idle
  {
    FeedEncoded(NEW_FRAMER, f);
    var os := [Dispatch(f)];
    assert os[1..] == [];
    assert Dispatched(os) == [f] + Dispatched(os[1..]);
  }

  lemma {:induction false} TextDispatchesNothing(t: seq<byte>)
    ensures Dispatched(TextOuts(t)) == []
  {
    if t != [] {
      assert TextOuts(t)[1..] == TextOuts(t[1..]);
      TextDispatchesNothing(t[1..]);
    }
  }

  lemma {:induction false} DecodedText(t: seq<byte>)
    requires IsClean(t)
    ensures Decoded(t) == [] && After(NEW_FRAMER, t).phase == Idle
  {
    FeedText(NEW_FRAMER, t);
    TextDispatchesNothing(t);
  }

  /** The frames of a transfer that its sender sends, in order. */
  function Fwd(fs: seq<Frame>): seq<Frame> {
    if fs == [] then []
    else (if fs[0].kind in {SI, HD, DT, EF} then [fs[0]] else []) + Fwd(fs[1..])
  }

  /** The answers its receiver gives.  RF, AT and CA are read and forgotten. */
  function Rev(fs: seq<Frame>): seq<Frame> {
    if fs == [] then []
    else (if fs[0].kind in {RR, AF, CN} then [fs[0]] else []) + Rev(fs[1..])
  }

  lemma {:induction false} FilterAppend(xs: seq<Frame>, ys: seq<Frame>)
    ensures Fwd(xs + ys) == Fwd(xs) + Fwd(ys)
    ensures Rev(xs + ys) == Rev(xs) + Rev(ys)
  {
    if xs == [] {
      assert xs + ys == ys;
    } else {
      assert (xs + ys)[1..] == xs[1..] + ys;
      FilterAppend(xs[1..], ys);
      Assoc(if xs[0].kind in {SI, HD, DT, EF} then [xs[0]] else [], Fwd(xs[1..]), Fwd(ys));
      Assoc(if xs[0].kind in {RR, AF, CN} then [xs[0]] else [], Rev(xs[1..]), Rev(ys));
    }
  }

  lemma FilterOne(f: Frame)
    ensures Fwd([f]) == if f.kind in {SI, HD, DT, EF} then [f] else []
    ensures Rev([f]) == if f.kind in {RR, AF, CN} then [f] else []
  {
    assert [f][1..] == [];
    assert Fwd([]) == [] && Rev([]) == [];
  }

  // ---------------------------------------------------------------- the planned frames

  predicate DataFrame(bytes: seq<byte>) {
    After(NEW_FRAMER, bytes).phase == Idle && Rev(Decoded(bytes)) == []
  }

  predicate IsBody(fs: seq<Frame>) {
    fs != [] &&
    if |fs| == 1 then fs[0] == Frame(EF, []) else fs[0].kind == DT && IsBody(fs[1..])
  }

  function Payload(fs: seq<Frame>): seq<byte> {
    if fs == [] then [] else (if fs[0].kind == DT then fs[0].data else []) + Payload(fs[1..])
  }

  function EncodeAll(fs: seq<Frame>): seq<seq<byte>>
    requires forall f :: f in fs ==> WellFormed(f)
  {
    if fs == [] then [] else [Encode(fs[0])] + EncodeAll(fs[1..])
  }

  lemma QueuedCons(bytes: seq<byte>, rest: seq<seq<byte>>)
    ensures Queued([bytes] + rest) == Decoded(bytes) + Queued(rest)
  {
    assert ([bytes] + rest)[1..] == rest;
  }

  lemma {:induction false} QueuedEncodeAll(fs: seq<Frame>)
    requires forall f :: f in fs ==> WellFormed(f) && f.kind in {HD, DT, EF}
    ensures Queued(EncodeAll(fs)) == fs && |EncodeAll(fs)| == |fs|
    ensures forall p :: p in EncodeAll(fs) ==> DataFrame(p)
  {
    if fs != [] {
      var f := fs[0];
      assert f in fs;
      QueuedEncodeAll(fs[1..]);
      DecodedFrame(f);
      FilterOne(f);
      QueuedCons(Encode(f), EncodeAll(fs[1..]));
    }
  }

  lemma BuildDTEncodes(chunk: seq<byte>)
    requires 0 < |chunk| <= 256
    ensures BuildDT(chunk) == Encode(Frame(DT, chunk))
  {
  }

  /** The data frames of a file and the end frame. */
  function Body(data: seq<byte>, chunk: nat): seq<Frame>
    requires 0 < chunk <= 256
  {
    if data == [] then [Frame(EF, [])]
    else
      var n := if chunk < |data| then chunk else |data|;
      [Frame(DT, data[..n])] + Body(data[n..], chunk)
  }

  lemma {:induction false} BodyShape(data: seq<byte>, chunk: nat)
    requires 0 < chunk <= 256
    ensures var fs := Body(data, chunk);
            && IsBody(fs) && Payload(fs) == data
            && forall f :: f in fs ==> WellFormed(f) && f.kind in {DT, EF}
    decreases |data|
  {
    var fs := Body(data, chunk);
    if data == [] {
      assert fs[1..] == [];
    } else {
      var n := if chunk < |data| then chunk else |data|;
      BodyShape(data[n..], chunk);
      assert fs[1..] == Body(data[n..], chunk);
      assert data == data[..n] + data[n..];
    }
  }

  lemma EncodeAllCons(f: Frame, fs: seq<Frame>)
    requires WellFormed(f) && forall x :: x in fs ==> WellFormed(x)
    ensures EncodeAll([f] + fs) == [Encode(f)] + EncodeAll(fs)
  {
    assert ([f] + fs)[1..] == fs;
  }

  lemma {:induction false} BodyEncodes(data: seq<byte>, chunk: nat)
    requires 0 < chunk <= 256
    ensures forall f :: f in Body(data, chunk) ==> WellFormed(f)
    ensures DataFrames(data, chunk) + [BuildEF()] == EncodeAll(Body(data, chunk))
    decreases |data|
  {
    BodyShape(data, chunk);
    if data == [] {
      var ef := Frame(EF, []);
      EncodeAllCons(ef, []);
      assert [ef] + [] == [ef] && Encode(ef) == BuildEF();
      assert [] + [BuildEF()] == [BuildEF()] + [];
    } else {
      var n := if chunk < |data| then chunk else |data|;
      var dt, rest := Frame(DT, data[..n]), data[n..];
      BodyShape(rest, chunk);
      BodyEncodes(rest, chunk);
      EncodeAllCons(dt, Body(rest, chunk));
      BuildDTEncodes(data[..n]);
      Assoc([BuildDT(data[..n])], DataFrames(rest, chunk), [BuildEF()]);
    }
  }

  lemma {:induction false} FwdKeepsAll(fs: seq<Frame>)
    requires forall f :: f in fs ==> f.kind in {SI, HD, DT, EF}
    ensures Fwd(fs) == fs && Rev(fs) == []
  {
    if fs != [] {
      assert fs[0] in fs;
      FwdKeepsAll(fs[1..]);
    }
  }

  /** The plan decodes to a header, the data and an end, and to nothing else. */
  lemma QueuedPlan(file: File, paclen: int)
    requires Sendable(file)
    ensures var plan := Plan(file.name, |file.data|, file.data, paclen); var fs := Queued(plan);
            && |plan| == |fs| > 0 && Fwd(fs) == fs && Rev(fs) == []
            && fs[0] == Frame(HD, HeaderBody(file.name, |file.data|))
            && IsBody(fs[1..]) && Payload(fs[1..]) == file.data
            && forall p :: p in plan ==> DataFrame(p)
  {
    var c := ClampPaclen(paclen) - 2;
    var hd := Frame(HD, HeaderBody(file.name, |file.data|));
    var body := Body(file.data, c);
    var fs := [hd] + body;
    BodyShape(file.data, c);
    BodyEncodes(file.data, c);
    assert fs[1..] == body;
    assert WellFormed(hd) && Encode(hd) == BuildHD(file.name, |file.data|);
    assert Plan(file.name, |file.data|, file.data, paclen) == EncodeAll(fs) by {
      Assoc([BuildHD(file.name, |file.data|)], DataFrames(file.data, c), [BuildEF()]);
    }
    QueuedEncodeAll(fs);
    FwdKeepsAll(fs);
  }
}
