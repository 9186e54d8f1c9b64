/** A receiver that changes its mind: it accepts an offer and aborts before its RR has been read.  The
    RR is stale but still starts the sender, and what the sender sends before it reads the CN finds the
    receiver idle. */
module YappAborts {
  import opened Bytes
  import opened YappFrames
  import opened YappSession
  import opened YappPump
  import opened YappLink
  import opened YappCompletes

  /** The frames of the plan. */
  function PlanOf(file: File, paclen: int): seq<Frame> {
    [HeaderOf(file)] + Body(file.data, ClampPaclen(paclen) - 2)
  }

  /** The receiver, its acceptance withdrawn and its answers on their way. */
  predicate IdleAgain(y: Session) {
    && y.xfer == NO_XFER && y.file == NO_FILE && y.framer.phase == Idle && y.connected
    && y.out == [] && y.notices == [Requested] + [Ended(true)]
  }

  /** What the receiver has sent once it has accepted and aborted. */
  lemma AbortedAnswers(y: Session)
    requires Ready(y.(out := [])) && y.out == BuildRR()
    ensures Abort(y).out == BuildRR() + BuildCN(USER_ABORT) && IdleAgain(Abort(y).(out := []))
  {
  }

  // ---------------------------------------------------------------- the sender

  /** The stale RR starts the sender, as any RR would. */
  lemma StaleGrantStarts(x: Session, file: File, paclen: int) returns (s: Session)
    requires OfferMade(x, file)
    ensures Receive(x, BuildRR(), paclen) == StartDataPhase(s, paclen) && OfferMade(s, file)
  {
    assert BuildRR() == Encode(Frame(RR, []));
    var g := OneReceive(x, Frame(RR, []), paclen);
    StartIgnoresFramer(x, Plan(file.name, |file.data|, file.data, paclen), g);
    s := x.(framer := g);
  }

  /** k bursts later it reads the CN: what went out by then is on its way, and nothing is reported. */
  lemma CancelStops(s: Session, file: File, paclen: int, k: nat) returns (g: Framer)
    requires OfferMade(s, file)
    ensures var plan, x := FramesOf(s, paclen), Bursts(StartDataPhase(s, paclen), k);
            var r := Receive(x, BuildCN(USER_ABORT), paclen);
            && r == OnCN(x).(framer := g) && r.xfer == NO_XFER && g.phase == Idle && Reported(r.notices) == []
            && r.out == Flatten(if k < |plan| then plan[..k + 1] else plan)
  {
    var x := Bursts(StartDataPhase(s, paclen), k);
    var cn := Frame(CN, USER_ABORT);
    PumpRun(s, paclen, k);
    BurstsKeep(StartDataPhase(s, paclen), k);
    assert BuildCN(USER_ABORT) == Encode(cn);
    Told(s.notices, Started(Tx, file.name, |file.data|, Active));
    Told(x.notices, Ended(true));
    Unit(Reported(s.notices));
    Unit(Flatten(FramesOf(s, paclen)));
    g := OneReceive(x, cn, paclen);
  }

  // ---------------------------------------------------------------- the receiver

  /** Idle as it is, it opens the file at the header. */
  lemma OpensIdle(y: Session, file: File)
    requires IdleAgain(y)
    ensures var s := Opened(y, file);
            && s.out == BuildRF() && s.file == Incoming(file.name, |file.data|, [], true)
            && s.xfer.active && s.xfer.dir == Rx && s.xfer.phase == NoPhase && s.connected
            && s.notices == [Requested] + [Ended(true)] + [Started(Rx, file.name, |file.data|, NoPhase)]
  {
    Unit(BuildRF());
  }

  /** The first k blocks, the last of which may be shorter. */
  function Blocks(data: seq<byte>, chunk: nat, k: nat): (r: seq<byte>)
    requires 0 < chunk
    ensures r <= data
  {
    if k == 0 || data == [] then []
    else
      var n := if chunk < |data| then chunk else |data|;
      data[..n] + Blocks(data[n..], chunk, k - 1)
  }

  /** A receiver with a file open, k data frames later. */
  lemma {:induction false} BlocksHandled(s: Session, data: seq<byte>, chunk: nat, k: nat, paclen: int)
    requires 0 < chunk <= 256 && s.file.active && k < |Body(data, chunk)|
    ensures var t := HandleAll(s, Body(data, chunk)[..k], paclen);
            && t.file == s.file.(fileBuf := s.file.fileBuf + Blocks(data, chunk, k))
            && t.xfer.active == s.xfer.active && t.xfer.dir == s.xfer.dir && t.xfer.phase == s.xfer.phase
            && t.out == s.out && t.notices == s.notices && t.connected == s.connected
    decreases k
  {
    var fs := Body(data, chunk);
    if k == 0 {
      assert fs[..0] == [];
      Unit(s.file.fileBuf);
    } else {
      var n := if chunk < |data| then chunk else |data|;
      assert fs[..k][0] == Frame(DT, data[..n]) && fs[..k][1..] == Body(data[n..], chunk)[..k - 1];
      BlocksHandled(OnDT(s, data[..n]), data[n..], chunk, k - 1, paclen);
      Assoc(s.file.fileBuf, data[..n], Blocks(data[n..], chunk, k - 1));
    }
  }

  lemma {:induction false} EncodePrefix(fs: seq<Frame>, k: nat)
    requires k <= |fs| && forall f :: f in fs ==> WellFormed(f)
    ensures |EncodeAll(fs)| == |fs| && EncodeAll(fs)[..k] == EncodeAll(fs[..k])
  {
    if fs != [] {
      assert fs[0] in fs;
      if k == 0 {
        EncodePrefix(fs[1..], 0);
      } else {
        EncodePrefix(fs[1..], k - 1);
        assert fs[..k][0] == fs[0] && fs[..k][1..] == fs[1..][..k - 1];
      }
    }
  }

  /** It has a file open that nothing awaits: no timer will end it, and no offer of its own gets out. */
  ghost predicate LeftOpen(y: Session, file: File, got: seq<byte>) {
    && y.xfer.active && y.xfer.dir == Rx && y.xfer.phase == NoPhase
    && y.file == Incoming(file.name, |file.data|, got, true) && Delivered(y.notices) == [] && y.out == BuildRF()
    && Timeout(y, AwaitingRR) == y && Timeout(y, AwaitingAF) == y && forall f :: SendFile(y, f) == y
  }

  lemma OpenedHearsNothing(y: Session, file: File)
    requires y.notices == [Requested] + [Ended(true)] + [Started(Rx, file.name, |file.data|, NoPhase)]
    ensures Delivered(y.notices) == []
  {
    Told([], Requested);
    Unit([Requested]);
    Told([Requested], Ended(true));
    Told([Requested] + [Ended(true)], Started(Rx, file.name, |file.data|, NoPhase));
  }

  /** Part of the plan: the file stays open with the blocks that came. */
  lemma PartHandled(y: Session, file: File, paclen: int, k: nat)
    requires IdleAgain(y) && Sendable(file) && k + 1 < |PlanOf(file, paclen)|
    ensures LeftOpen(HandleAll(y, PlanOf(file, paclen)[..k + 1], paclen), file,
                     Blocks(file.data, ClampPaclen(paclen) - 2, k))
  {
    var c := ClampPaclen(paclen) - 2;
    var body := Body(file.data, c);
    var hd := HeaderOf(file);
    assert PlanOf(file, paclen)[..k + 1] == [hd] + body[..k];
    HeaderHandled(y, file, body[..k], paclen);
    OpensIdle(y, file);
    BlocksHandled(Opened(y, file), file.data, c, k, paclen);
    Unit(Blocks(file.data, c, k));
    OpenedHearsNothing(HandleAll(y, PlanOf(file, paclen)[..k + 1], paclen), file);
  }

  /** The whole of it: the file is handed over after all. */
  predicate HandedOver(y: Session, file: File) {
    y.xfer == NO_XFER && y.file == NO_FILE && Delivered(y.notices) == [file] && y.out == BuildRF() + BuildAF()
  }

  lemma WholeHandled(y: Session, file: File, paclen: int)
    requires IdleAgain(y) && Sendable(file)
    ensures HandedOver(HandleAll(y, PlanOf(file, paclen), paclen), file)
  {
    var c := ClampPaclen(paclen) - 2;
    var s := Opened(y, file);
    HeaderHandled(y, file, Body(file.data, c), paclen);
    OpensIdle(y, file);
    BodyHandled(s, file.data, c, paclen);
    Unit(file.data);
    OpenedHearsNothing(s, file);
    Told(s.notices, FileReceived(file.name, file.data));
    Told(s.notices + [FileReceived(file.name, file.data)], Ended(false));
    Unit([file]);
  }

  lemma PrefixReceived(y: Session, file: File, paclen: int, j: nat) returns (g: Framer)
    requires y.framer.phase == Idle && Sendable(file) && j <= |PlanOf(file, paclen)|
    ensures var plan := Plan(file.name, |file.data|, file.data, paclen);
            && |plan| == |PlanOf(file, paclen)|
            && Receive(y, Flatten(plan[..j]), paclen) == HandleAll(y, PlanOf(file, paclen)[..j], paclen).(framer := g)
  {
    var fs := PlanOf(file, paclen);
    PlanEncodes(file, paclen);
    EncodePrefix(fs, j);
    assert forall f :: f in fs[..j] ==> f in fs;
    g := FramesReceive(y, fs[..j], paclen);
  }

  lemma FramerPlaysNoPart(y: Session, file: File, got: seq<byte>, g: Framer)
    ensures LeftOpen(y, file, got) ==> LeftOpen(y.(framer := g), file, got)
    ensures HandedOver(y, file) ==> HandedOver(y.(framer := g), file)
  {
  }

  lemma PartFound(y: Session, file: File, paclen: int, k: nat)
    requires IdleAgain(y) && Sendable(file) && k + 1 < |PlanOf(file, paclen)|
    ensures var plan := Plan(file.name, |file.data|, file.data, paclen);
            && |plan| == |PlanOf(file, paclen)|
            && LeftOpen(Receive(y, Flatten(plan[..k + 1]), paclen), file, Blocks(file.data, ClampPaclen(paclen) - 2, k))
  {
    var g := PrefixReceived(y, file, paclen, k + 1);
    PartHandled(y, file, paclen, k);
    FramerPlaysNoPart(HandleAll(y, PlanOf(file, paclen)[..k + 1], paclen), file,
                      Blocks(file.data, ClampPaclen(paclen) - 2, k), g);
  }

  lemma WholeFound(y: Session, file: File, paclen: int)
    requires IdleAgain(y) && Sendable(file)
    ensures var plan := Plan(file.name, |file.data|, file.data, paclen);
            |plan| == |PlanOf(file, paclen)| && HandedOver(Receive(y, Flatten(plan), paclen), file)
  {
    var fs := PlanOf(file, paclen);
    var g := PrefixReceived(y, file, paclen, |fs|);
    PrefixEnds(fs);
    PrefixEnds(Plan(file.name, |file.data|, file.data, paclen));
    WholeHandled(y, file, paclen);
    FramerPlaysNoPart(HandleAll(y, fs, paclen), file, [], g);
  }

  // ---------------------------------------------------------------- both

  /** The bursts the sender counted before it read the CN. */
  function FramesOut(k: nat, planned: nat): nat { if k < planned then k + 1 else planned }

  /** What comes of it: the sender ends idle with nothing to report; the receiver, once it has read
      everything, has the whole file handed over if the whole plan was out by then, and else is left
      with a file open. */
  ghost predicate Mismatched(x: Session, z: Session, file: File, paclen: int, k: nat) {
    var planned := |Plan(file.name, |file.data|, file.data, paclen)|;
    && x.xfer == NO_XFER && Reported(x.notices) == []
    && if k + 1 < planned then LeftOpen(z, file, Blocks(file.data, ClampPaclen(paclen) - 2, k))
       else HandedOver(z, file)
  }

  /** The sender's part. */
  lemma GrantedAndStopped(x: Session, file: File, paclen: int, k: nat)
    requires OfferMade(x, file)
    ensures var plan := Plan(file.name, |file.data|, file.data, paclen);
            var r := Receive(Bursts(Receive(x, BuildRR(), paclen), k), BuildCN(USER_ABORT), paclen);
            && r.xfer == NO_XFER && Reported(r.notices) == []
            && r.out == Flatten(if k < |plan| then plan[..k + 1] else plan)
  {
    var s := StaleGrantStarts(x, file, paclen);
    var g := CancelStops(s, file, paclen, k);
  }

  lemma EndsMismatched(x: Session, y: Session, file: File, paclen: int, k: nat, plan: seq<seq<byte>>)
    requires x.xfer == NO_XFER && Reported(x.notices) == [] && Sendable(file) && IdleAgain(y)
    requires plan == Plan(file.name, |file.data|, file.data, paclen)
    requires x.out == Flatten(if k < |plan| then plan[..k + 1] else plan)
    ensures Mismatched(x, Receive(y, x.out, paclen), file, paclen, k)
  {
    WholeFound(y, file, paclen);
    if k + 1 < |plan| {
      PartFound(y, file, paclen, k);
    } else {
      PrefixEnds(plan);
    }
  }

  lemma GrantThenCancel(x: Session, y: Session, file: File, paclen: int, k: nat)
    requires OfferMade(x, file) && Sendable(file) && IdleAgain(y)
    ensures var x' := Receive(Bursts(Receive(x, BuildRR(), paclen), k), BuildCN(USER_ABORT), paclen);
            Mismatched(x', Receive(y, x'.out, paclen), file, paclen, k)
  {
    GrantedAndStopped(x, file, paclen, k);
    EndsMismatched(Receive(Bursts(Receive(x, BuildRR(), paclen), k), BuildCN(USER_ABORT), paclen), y, file, paclen, k,
                   Plan(file.name, |file.data|, file.data, paclen));
  }

  /** For every file there is a run after whose offer and acceptance the receiver may abort, and then
      this comes of it, for every number k of bursts that go by before the sender reads the CN behind
      the RR. */
  lemma StaleGrant(file: File, paclen: int, k: nat) returns (events: seq<Event>)
    requires Sendable(file) && file.name != [] && file.data != []
    ensures AllAllowed(events)
    ensures var w := Run(events);
            var y := Abort(w.b);
            && y.out == BuildRR() + BuildCN(USER_ABORT) && y.xfer == NO_XFER
            && var x := Receive(Bursts(Receive(w.a, BuildRR(), paclen), k), BuildCN(USER_ABORT), paclen);
               Mismatched(x, Receive(y.(out := []), x.out, paclen), file, paclen, k)
  {
    events := Handshake(file, paclen);
    AbortedAnswers(Run(events).b);
    GrantThenCancel(Run(events).a, Abort(Run(events).b).(out := []), file, paclen, k);
  }
}
