/** A transfer that nobody refuses or interrupts completes: for every file there is a run of the two
    stations at whose end the file is delivered, reported as sent, and both are idle again. */
module YappCompletes {
  import opened Bytes
  import opened YappFrames
  import opened YappSession
  import opened YappPump
  import opened YappLink

  // ---------------------------------------------------------------- receiving whole frames

  lemma {:induction false} QuietReceive(s: Session, bytes: seq<byte>, paclen: int)
    requires Outs(s.framer, bytes) == []
    ensures Receive(s, bytes, paclen) == s.(framer := After(s.framer, bytes))
    decreases |bytes|
  {
    if bytes != [] {
      QuietReceive(Receive1(s, bytes[0], paclen), bytes[1..], paclen);
    }
  }

  lemma {:induction false} FrameReceive(s: Session, bytes: seq<byte>, f: Frame, paclen: int)
    requires Outs(s.framer, bytes) == [Dispatch(f)]
    ensures Receive(s, bytes, paclen) == Handle(s, f, paclen).(framer := After(s.framer, bytes))
    decreases |bytes|
  {
    assert bytes != [];
    var (q, o) := Step(s.framer, bytes[0]);
    var rest := Outs(q, bytes[1..]);
    if o.Quiet? {
      assert Emit(o) + rest == rest;
      FrameReceive(s.(framer := q), bytes[1..], f, paclen);
      HandleIgnoresFramer(s, f, paclen, q);
    } else {
      assert ([o] + rest)[0] == o && ([o] + rest)[1..] == rest;
      assert [Dispatch(f)][1..] == [];
      QuietReceive(Handle(s, f, paclen).(framer := q), bytes[1..], paclen);
    }
  }

  lemma {:induction false} ReceiveAppend(s: Session, xs: seq<byte>, ys: seq<byte>, paclen: int)
    ensures Receive(s, xs + ys, paclen) == Receive(Receive(s, xs, paclen), ys, paclen)
    decreases |xs|
  {
    if xs == [] {
      assert xs + ys == ys;
    } else {
      assert (xs + ys)[1..] == xs[1..] + ys;
      ReceiveAppend(Receive1(s, xs[0], paclen), xs[1..], ys, paclen);
    }
  }

  function HandleAll(s: Session, fs: seq<Frame>, paclen: int): Session
    decreases |fs|
  {
    if fs == [] then s else HandleAll(Handle(s, fs[0], paclen), fs[1..], paclen)
  }

  lemma HandleFirst(s: Session, f: Frame, rest: seq<Frame>, paclen: int)
    ensures HandleAll(s, [f] + rest, paclen) == HandleAll(Handle(s, f, paclen), rest, paclen)
  {
    assert ([f] + rest)[1..] == rest;
  }

  lemma {:induction false} HandleAllIgnoresFramer(s: Session, fs: seq<Frame>, paclen: int, g: Framer)
    ensures HandleAll(s.(framer := g), fs, paclen) == HandleAll(s, fs, paclen).(framer := g)
    decreases |fs|
  {
    if fs != [] {
      HandleIgnoresFramer(s, fs[0], paclen, g);
      HandleAllIgnoresFramer(Handle(s, fs[0], paclen), fs[1..], paclen, g);
    }
  }

  /** Frames received between two frames are handled one by one, and leave the framer there. */
  lemma {:induction false} FramesReceive(s: Session, fs: seq<Frame>, paclen: int) returns (g: Framer)
    requires s.framer.phase == Idle && forall f :: f in fs ==> WellFormed(f)
    ensures Receive(s, Flatten(EncodeAll(fs)), paclen) == HandleAll(s, fs, paclen).(framer := g) && g.phase == Idle
    decreases |fs|
  {
    if fs == [] {
      g := s.framer;
    } else {
      assert fs[0] in fs;
      var first, rest := Encode(fs[0]), EncodeAll(fs[1..]);
      EncodeAllCons(fs[0], fs[1..]);
      assert [fs[0]] + fs[1..] == fs && ([first] + rest)[1..] == rest;
      FeedEncoded(s.framer, fs[0]);
      FrameReceive(s, first, fs[0], paclen);
      ReceiveAppend(s, first, Flatten(rest), paclen);
      var q := After(s.framer, first);
      g := FramesReceive(Handle(s, fs[0], paclen).(framer := q), fs[1..], paclen);
      HandleAllIgnoresFramer(Handle(s, fs[0], paclen), fs[1..], paclen, q);
    }
  }

  lemma OneReceive(s: Session, f: Frame, paclen: int) returns (g: Framer)
    requires s.framer.phase == Idle && WellFormed(f)
    ensures Receive(s, Encode(f), paclen) == Handle(s, f, paclen).(framer := g) && g.phase == Idle
  {
    g := After(s.framer, Encode(f));
    FeedEncoded(s.framer, f);
    FrameReceive(s, Encode(f), f, paclen);
  }

  // ---------------------------------------------------------------- the receiver of a file

  /** What the data frames and the end of a file do to a receiver that has its header. */
  lemma {:induction false} BodyHandled(s: Session, data: seq<byte>, chunk: nat, paclen: int)
    requires 0 < chunk <= 256 && s.file.active
    ensures var t := HandleAll(s, Body(data, chunk), paclen);
            && t.xfer == NO_XFER && t.file == NO_FILE && t.out == s.out + BuildAF()
            && t.notices == s.notices + [FileReceived(s.file.filename, s.file.fileBuf + data)] + [Ended(false)]
    decreases |data|
  {
    var fs := Body(data, chunk);
    if data == [] {
      assert fs == [Frame(EF, [])] && fs[1..] == [];
      assert HandleAll(s, fs, paclen) == HandleAll(OnEF(s), [], paclen) == OnEF(s);
      assert s.file.fileBuf + data == s.file.fileBuf;
    } else {
      var n := if chunk < |data| then chunk else |data|;
      assert fs[0] == Frame(DT, data[..n]) && fs[1..] == Body(data[n..], chunk);
      var s1 := OnDT(s, data[..n]);
      BodyHandled(s1, data[n..], chunk, paclen);
      Assoc(s.file.fileBuf, data[..n], data[n..]);
      assert data == data[..n] + data[n..];
    }
  }

  function HeaderOf(file: File): Frame { Frame(HD, HeaderBody(file.name, |file.data|)) }

  lemma PlanEncodes(file: File, paclen: int)
    requires Sendable(file)
    ensures var fs := [HeaderOf(file)] + Body(file.data, ClampPaclen(paclen) - 2);
            && (forall f :: f in fs ==> WellFormed(f))
            && Plan(file.name, |file.data|, file.data, paclen) == EncodeAll(fs)
  {
    var c := ClampPaclen(paclen) - 2;
    var hd := HeaderOf(file);
    BodyShape(file.data, c);
    BodyEncodes(file.data, c);
    EncodeAllCons(hd, Body(file.data, c));
    Assoc([BuildHD(file.name, |file.data|)], DataFrames(file.data, c), [BuildEF()]);
  }

  predicate Ready(y: Session) {
    y.xfer.active && y.xfer.dir == Rx && y.xfer.phase == Active && !y.file.active && y.framer.phase == Idle
    && y.out == [] && y.connected && y.notices == [Requested]
  }

  lemma ToldOnce(before: seq<Notice>, started: Notice, file: File)
    requires before == [Requested] && started.Started?
    ensures Delivered(before + [started] + [FileReceived(file.name, file.data)] + [Ended(false)]) == [file]
  {
    var told := before + [started];
    Told([], Requested);
    assert [] + [Requested] == [Requested];
    Told(before, started);
    Told(told, FileReceived(file.name, file.data));
    Told(told + [FileReceived(file.name, file.data)], Ended(false));
    assert Delivered([]) == [];
  }

  /** s with the file of a header open. */
  function Opened(s: Session, file: File): Session {
    var x := s.xfer.(active := true, dir := Rx, name := file.name, total := |file.data|, done := 0);
    Send(Notify(s.(file := Incoming(file.name, |file.data|, [], true), xfer := x),
                Started(Rx, file.name, |file.data|, x.phase)), BuildRF())
  }

  /** The header starts the file. */
  lemma HeaderHandled(s: Session, file: File, rest: seq<Frame>, paclen: int)
    requires Sendable(file)
    ensures HandleAll(s, [HeaderOf(file)] + rest, paclen) == HandleAll(Opened(s, file), rest, paclen)
  {
    HeaderRoundTrip(file.name, |file.data|);
    HandleFirst(s, HeaderOf(file), rest, paclen);
  }

  /** What the frames of the plan make of the receiver. */
  lemma PlanHandled(y: Session, file: File, paclen: int)
    requires Ready(y) && Sendable(file)
    ensures var z := HandleAll(y, [HeaderOf(file)] + Body(file.data, ClampPaclen(paclen) - 2), paclen);
            && z.out == BuildRF() + BuildAF() && Delivered(z.notices) == [file]
            && z.xfer == NO_XFER && z.file == NO_FILE
  {
    var c := ClampPaclen(paclen) - 2;
    HeaderHandled(y, file, Body(file.data, c), paclen);
    BodyHandled(Opened(y, file), file.data, c, paclen);
    Unit(file.data);
    Unit(BuildRF());
    ToldOnce([Requested], Started(Rx, file.name, |file.data|, Active), file);
  }

  /** The whole plan reaches a receiver that accepted. */
  lemma PlanReceived(y: Session, file: File, paclen: int)
    requires Ready(y) && Sendable(file)
    ensures var z := Receive(y, Flatten(Plan(file.name, |file.data|, file.data, paclen)), paclen);
            && z.out == BuildRF() + BuildAF() && Delivered(z.notices) == [file]
            && z.xfer == NO_XFER && z.file == NO_FILE && z.framer.phase == Idle
  {
    var frames := [HeaderOf(file)] + Body(file.data, ClampPaclen(paclen) - 2);
    PlanEncodes(file, paclen);
    var g := FramesReceive(y, frames, paclen);
    PlanHandled(y, file, paclen);
  }

  // ---------------------------------------------------------------- the sender of a file

  /** What stays as it was while the pump runs. */
  predicate SameTransfer(r: Session, s: Session) {
    && r.xfer.name == s.xfer.name && r.notices == s.notices && r.framer == s.framer
    && r.sent == s.sent && r.offered == s.offered && r.ignored == s.ignored
  }

  lemma {:induction false} BurstsKeep(s: Session, k: nat)
    requires !s.xfer.abortPending && s.xfer.active && s.xfer.dir == Tx
    ensures var r := Bursts(s, k);
            && SameTransfer(r, s) && !r.xfer.abortPending
            && r.xfer.active && r.xfer.dir == Tx && r.xfer.total == s.xfer.total
  {
    if k > 0 {
      BurstsKeep(s, k - 1);
    }
  }

  lemma AnswersReceived(x: Session, file: File, paclen: int)
    requires x.xfer.active && x.xfer.dir == Tx && x.xfer.phase == AwaitingAF && x.framer.phase == Idle
    requires x.xfer.name == file.name && x.xfer.total == |file.data| && Reported(x.notices) == []
    ensures var z := Receive(x, BuildRF() + BuildAF(), paclen);
            && z.xfer == NO_XFER && Reported(z.notices) == [(file.name, |file.data|)]
            && z.framer.phase == Idle && z.out == x.out
  {
    var rf, af := Frame(RF, []), Frame(AF, []);
    assert BuildRF() == Encode(rf) && BuildAF() == Encode(af);
    var g := OneReceive(x, rf, paclen);
    ReceiveAppend(x, Encode(rf), Encode(af), paclen);
    var h := OneReceive(x.(framer := g), af, paclen);
    var z := OnAF(x);
    Told(x.notices, FileSent(file.name, |file.data|));
    Told(x.notices + [FileSent(file.name, |file.data|)], Ended(false));
    assert Reported(z.notices) == [] + [(file.name, |file.data|)];
  }

  // ---------------------------------------------------------------- the run

  lemma RunSnoc(events: seq<Event>, e: Event)
    ensures Run(events + [e]) == Happen(Run(events), e)
  {
    assert (events + [e])[..|events|] == events;
  }

  predicate AllAllowed(events: seq<Event>) { forall e :: e in events ==> Allowed(e.action) }

  /** The peer's whole channel is delivered to one station. */
  lemma DeliverAll(events: seq<Event>, byA: bool, paclen: int) returns (next: seq<Event>)
    requires AllAllowed(events)
    ensures AllAllowed(next) && events <= next && |next| == |events| + 1 && next[..|events|] == events
    ensures var w := Run(events);
            Run(next) == if byA then World(Receive(w.a, w.b.out, paclen), w.b.(out := []))
                         else World(w.a.(out := []), Receive(w.b, w.a.out, paclen))
  {
    var w := Run(events);
    var n := if byA then |w.b.out| else |w.a.out|;
    var e := Event(byA, Deliver(n, paclen));
    next := events + [e];
    RunSnoc(events, e);
    assert w.b.out[..|w.b.out|] == w.b.out && w.b.out[|w.b.out|..] == [];
    assert w.a.out[..|w.a.out|] == w.a.out && w.a.out[|w.a.out|..] == [];
  }

  lemma {:induction false} ManyBursts(events: seq<Event>, k: nat) returns (next: seq<Event>)
    requires AllAllowed(events)
    ensures AllAllowed(next) && Run(next) == World(Bursts(Run(events).a, k), Run(events).b)
  {
    if k == 0 {
      next := events;
    } else {
      var before := ManyBursts(events, k - 1);
      next := before + [Event(true, Burst)];
      RunSnoc(before, Event(true, Burst));
    }
  }

  /** The sender once its offer is out, seen from the receiver who has read it. */
  predicate OfferMade(x: Session, file: File) {
    && Waiting(x) && x.out == [] && x.xfer.name == file.name && x.xfer.pendingData == file.data
    && x.framer.phase == Idle && Reported(x.notices) == []
  }

  lemma OfferIsMade(file: File)
    requires file.name != [] && file.data != []
    ensures var x := SendFile(NEW_SESSION, file); x.out == BuildSI() && OfferMade(x.(out := []), file)
  {
    assert [] + BuildSI() == BuildSI();
    Told([], Started(Tx, file.name, |file.data|, AwaitingRR));
  }

  /** The receiver has been asked. */
  lemma AskedFor(file: File, paclen: int) returns (events: seq<Event>, g: Framer)
    requires Sendable(file) && file.name != [] && file.data != []
    ensures AllAllowed(events) && g.phase == Idle
    ensures Run(events) == World(SendFile(NEW_SESSION, file).(out := []), OnSI(NEW_SESSION).(framer := g))
  {
    var offer := Event(true, Offer(file));
    RunSnoc([], offer);
    assert Run([]) == World(NEW_SESSION, NEW_SESSION);
    OfferIsMade(file);
    events := DeliverAll([] + [offer], false, paclen);
    assert BuildSI() == Encode(Frame(SI, []));
    g := OneReceive(NEW_SESSION, Frame(SI, []), paclen);
  }

  lemma AcceptanceIsReady(g: Framer)
    requires g.phase == Idle
    ensures var y := Accept(OnSI(NEW_SESSION).(framer := g)); y.out == BuildRR() && Ready(y.(out := []))
  {
    assert [] + BuildRR() == BuildRR() && [] + [Requested] == [Requested];
  }

  lemma Handshake(file: File, paclen: int) returns (events: seq<Event>)
    requires Sendable(file) && file.name != [] && file.data != []
    ensures AllAllowed(events)
    ensures var w := Run(events); OfferMade(w.a, file) && Ready(w.b.(out := [])) && w.b.out == BuildRR()
  {
    var g;
    events, g := AskedFor(file, paclen);
    OfferIsMade(file);
    AcceptanceIsReady(g);
    RunSnoc(events, Event(false, AcceptOffer));
    events := events + [Event(false, AcceptOffer)];
  }

  /** Offered, accepted, and k bursts into the data phase. */
  lemma Streamed(file: File, paclen: int, k: nat) returns (events: seq<Event>, x: Session, y: Session)
    requires Sendable(file) && file.name != [] && file.data != []
    ensures AllAllowed(events) && OfferMade(x, file) && Ready(y)
    ensures Run(events) == World(Bursts(StartDataPhase(x, paclen), k), y)
  {
    events := Handshake(file, paclen);
    var w := Run(events);
    events := DeliverAll(events, true, paclen);
    assert BuildRR() == Encode(Frame(RR, []));
    var g := OneReceive(w.a, Frame(RR, []), paclen);
    StartIgnoresFramer(w.a, Plan(file.name, |file.data|, file.data, paclen), g);
    x, y := w.a.(framer := g), w.b.(out := []);
    assert Run(events) == World(StartDataPhase(x, paclen), y);
    events := ManyBursts(events, k);
  }

  lemma DataPhase(x: Session, file: File, paclen: int)
    requires OfferMade(x, file)
    ensures var plan := Plan(file.name, |file.data|, file.data, paclen);
            var r := Bursts(StartDataPhase(x, paclen), |plan|);
            && r.xfer.active && r.xfer.dir == Tx && r.xfer.phase == AwaitingAF && r.out == Flatten(plan)
            && r.xfer.name == file.name && r.xfer.total == |file.data| && Reported(r.notices) == []
            && r.framer == x.framer
  {
    var plan := Plan(file.name, |file.data|, file.data, paclen);
    PumpRun(x, paclen, |plan|);
    var start := StartDataPhase(x, paclen);
    BurstsKeep(start, |plan|);
    Told(x.notices, Started(Tx, file.name, |file.data|, Active));
    assert x.out + Flatten(plan) == Flatten(plan);
  }

  /** For every file that can be announced there is a run, without a reject, that delivers it whole,
      reports it as sent, and leaves both stations idle. */
  lemma TransferCompletes(file: File, paclen: int) returns (events: seq<Event>)
    requires Sendable(file) && file.name != [] && file.data != []
    ensures AllAllowed(events)
    ensures var w := Run(events);
            && Delivered(w.b.notices) == [file] && Reported(w.a.notices) == [(file.name, |file.data|)]
            && w.a.xfer == NO_XFER && w.b.xfer == NO_XFER && w.b.file == NO_FILE
  {
    var x, y;
    var plan := Plan(file.name, |file.data|, file.data, paclen);
    events, x, y := Streamed(file, paclen, |plan|);
    DataPhase(x, file, paclen);
    events := DeliverAll(events, false, paclen);
    PlanReceived(y, file, paclen);
    events := DeliverAll(events, true, paclen);
    AnswersReceived(Bursts(StartDataPhase(x, paclen), |plan|).(out := []), file, paclen);
  }
}
