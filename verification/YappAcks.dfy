/** When the peer's acknowledgement counts.  A burst counts for the frame the sender queued last,
    but with several sessions on one modem it may be another session's, so the peer can have a
    transfer's last frame before the sender has counted it.  An acknowledgement read then is lost. */
module YappAcks {
  import opened Bytes
  import opened YappFrames
  import opened YappSession
  import opened YappPump
  import opened YappLink
  import opened YappSafety
  import opened YappHistory
  import opened YappCompletes

  /** An acknowledgement read while sending reports the file exactly when as many bursts were counted
      as frames were planned; otherwise it only adds to the ignored ones. */
  lemma AckCountsIff(s: Session)
    requires Sound(s) && Sending(s)
    ensures OnAF(s).sent == s.sent + [s.offered] <==> s.xfer.framesSent >= s.xfer.framesPlanned
    ensures s.xfer.framesSent < s.xfer.framesPlanned ==> OnAF(s) == s.(ignored := s.ignored + 1)
  {
    assert s.sent + [s.offered] != s.sent;
  }

  // ---------------------------------------------------------------- a lost acknowledgement

  lemma PlanIgnoredStays(s: Session, plan: seq<seq<byte>>)
    ensures BeginPlan(s, plan).ignored == s.ignored
  {
  }

  lemma HandleIgnoredGrows(s: Session, f: Frame, paclen: int)
    ensures s.ignored <= Handle(s, f, paclen).ignored
  {
    match f.kind {
      case RR => PlanIgnoredStays(s, Plan(s.xfer.name, s.xfer.total, s.xfer.pendingData, paclen));
      case _ =>
    }
  }

  lemma {:induction false} ReceiveIgnoredGrows(s: Session, chunk: seq<byte>, paclen: int)
    ensures s.ignored <= Receive(s, chunk, paclen).ignored
    decreases |chunk|
  {
    if chunk != [] {
      var (q, o) := Step(s.framer, chunk[0]);
      if o.Dispatch? {
        HandleIgnoredGrows(s, o.frame, paclen);
      }
      ReceiveIgnoredGrows(Receive1(s, chunk[0], paclen), chunk[1..], paclen);
    }
  }

  /** An action of a station that is sending. */
  lemma SenderAct(w: World, act: Action)
    requires IsTx(w.a)
    ensures w.a.ignored <= Act(w, act).a.ignored && NoNewClaim(w.a, Act(w, act).a)
  {
    match act {
      case Deliver(n, paclen) =>
        var chunk := w.b.out[..if n < |w.b.out| then n else |w.b.out|];
        ReceiveIgnoredGrows(w.a, chunk, paclen);
        ReceiveClaimsNothing(w.a, chunk, paclen);
      case _ =>
    }
  }

  lemma SenderEvent(w: World, e: Event)
    requires IsTx(w.a)
    ensures var x := Happen(w, e).a; w.a.ignored <= x.ignored && NoNewClaim(w.a, x)
  {
    if e.byA {
      SenderAct(w, e.action);
    }
  }

  lemma LostIsAcked(events: seq<Event>)
    requires AllAllowed(events) && Run(events).a.ignored > 0
    ensures var w := Run(events); Sending(w.a) && OneAhead(w.a, w.b)
  {
    RunKeeps(events);
  }

  /** Once an acknowledgement was ignored, nothing but a timer ends the transfer: in every
      continuation the station is still sending the same file, which its peer has delivered, and has
      reported nothing more. */
  lemma {:induction false} LostForGood(events: seq<Event>, more: seq<Event>)
    requires AllAllowed(events + more) && Run(events).a.ignored > 0
    ensures var w, z := Run(events), Run(events + more);
            && Sending(z.a) && z.a.offered == w.a.offered && z.a.sent == w.a.sent && z.a.ignored > 0
            && Delivered(z.b.notices) == w.a.sent + [w.a.offered]
    decreases |more|
  {
    assert forall e :: e in events ==> e in events + more;
    LostIsAcked(events);
    if more == [] {
      Unit(events);
    } else {
      var init, e := more[..|more| - 1], more[|more| - 1];
      var upTo := events + init;
      assert events + more == upTo + [e];
      assert forall d :: d in upTo ==> d in events + more;
      LostForGood(events, init);
      RunSnoc(upTo, e);
      SenderEvent(Run(upTo), e);
      LostIsAcked(upTo + [e]);
    }
  }

  // ---------------------------------------------------------------- otherwise the transfer can complete

  /** A wait for the acknowledgement, with n of them ignored, is the only way x may still be sending. */
  predicate OnlyAwaiting(x: Session, n: nat) {
    IsTx(x) ==> x.xfer.phase == AwaitingAF && x.ignored == n
  }

  lemma HandleAwaiting(x: Session, f: Frame, paclen: int, n: nat)
    requires OnlyAwaiting(x, n)
    ensures OnlyAwaiting(Handle(x, f, paclen), n)
  {
  }

  lemma {:induction false} ReceiveAwaiting(x: Session, chunk: seq<byte>, paclen: int, n: nat)
    requires OnlyAwaiting(x, n)
    ensures OnlyAwaiting(Receive(x, chunk, paclen), n)
    decreases |chunk|
  {
    if chunk != [] {
      var (q, o) := Step(x.framer, chunk[0]);
      if o.Dispatch? {
        HandleAwaiting(x, o.frame, paclen, n);
      }
      ReceiveAwaiting(Receive1(x, chunk[0], paclen), chunk[1..], paclen, n);
    }
  }

  /** y has still to see a planned frame of x for every planned burst x has not counted: it has seen at
      most as many as were counted. */
  predicate NotAhead(x: Session, y: Session) {
    IsTx(x) && x.xfer.phase == Active ==> |Fwd(Coming(x, y))| >= x.xfer.framesPlanned - x.xfer.framesSent
  }

  predicate PacedWorld(w: World) { NotAhead(w.a, w.b) && NotAhead(w.b, w.a) }

  /** No frame of a transfer ever reaches the peer before the burst that carries it was counted. */
  predicate Paced(events: seq<Event>) {
    PacedWorld(Run(events)) && (events != [] ==> Paced(events[..|events| - 1]))
  }

  lemma AnswerKeepsCounts(x: Session, g: Frame, paclen: int)
    requires Sound(x) && g.kind !in {RR, AF}
    ensures var x' := Handle(x, g, paclen); x'.ignored == x.ignored && (IsTx(x') ==> x'.xfer == x.xfer)
  {
  }

  lemma AnsweredPaced(x: Session, y: Session, g: Frame, paclen: int)
    requires Sound(x) && QueueOk(x) && Whole(x, y) && NotAhead(x, y) && g.kind !in {RR, AF}
    ensures var x' := Handle(x, g, paclen); x'.ignored == x.ignored && NotAhead(x', y)
  {
    var x' := Handle(x, g, paclen);
    AnswerKeepsCounts(x, g, paclen);
    AnswerGoesOut(x, g, paclen);
    if IsTx(x') {
      ComingAfterAnswer(x, y, Answer(x, g), x');
    }
  }

  lemma StartPaced(x: Session, y: Session, paclen: int)
    requires Sound(x) && OfferOk(x) && Whole(x, y) && Asking(x)
    ensures var x' := OnRR(x, paclen); x'.ignored == x.ignored && NotAhead(x', y)
  {
    var plan := Plan(x.xfer.name, x.xfer.total, x.xfer.pendingData, paclen);
    QueuedPlan(x.offered, paclen);
    assert plan[0] in plan;
    BeginPlanSound(x, plan);
    ComingAfterPlan(x, y, plan, OnRR(x, paclen));
    FilterAppend(Coming(x, y), Queued(plan));
  }

  lemma CountedAck(x: Session, y: Session, g: Frame, dr: seq<Frame>)
    requires Sound(x) && NotAhead(x, y) && g.kind == AF && Direction(x, y, Fwd(Coming(x, y)), Rev([g]) + dr)
    ensures OnAF(x).ignored == x.ignored && NotAhead(OnAF(x), y)
  {
    FilterOne(g);
    AckedHead(x, y, g, Fwd(Coming(x, y)), dr);
  }

  lemma FramePaced(x: Session, y: Session, g: Frame, paclen: int)
    requires QueueOk(x) && OfferOk(x) && Whole(x, y) && NotAhead(x, y)
    requires Before(x, y, g, Fwd(Coming(x, y)), Rev(Coming(x, y)), Fwd(Coming(y, x)), Rev(Coming(y, x)))
    ensures var x' := Handle(x, g, paclen); x'.ignored == x.ignored && NotAhead(x', y)
  {
    if g.kind == AF {
      CountedAck(x, y, g, Rev(Coming(y, x)));
    } else if g.kind != RR {
      AnsweredPaced(x, y, g, paclen);
    } else if Asking(x) {
      StartPaced(x, y, paclen);
    }
  }

  lemma BytePaced(x: Session, y: Session, paclen: int)
    requires Inv(World(x, y)) && y.out != [] && NotAhead(x, y)
    ensures var x', y' := Receive1(x, y.out[0], paclen), y.(out := y.out[1..]);
            x'.ignored == x.ignored && NotAhead(x', y')
  {
    var (q, o) := Step(x.framer, y.out[0]);
    var x1, y1 := x.(framer := q), y.(out := y.out[1..]);
    assert Coming(x1, y1) == Coming(x, y);
    if o.Dispatch? {
      FrameTaken(x, y, x1, y1, o.frame);
      FramePaced(x1, y1, o.frame, paclen);
      HandleIgnoresFramer(x, o.frame, paclen, q);
    } else {
      assert Coming(Receive1(x, y.out[0], paclen), y1) == Coming(x, y);
    }
  }

  lemma {:induction false} DeliverPaced(x: Session, y: Session, k: nat, paclen: int)
    requires Inv(World(x, y)) && k <= |y.out| && NotAhead(x, y)
    ensures var x', y' := Receive(x, y.out[..k], paclen), y.(out := y.out[k..]);
            x'.ignored == x.ignored && NotAhead(x', y')
    decreases k
  {
    if k == 0 {
      assert y.out[0..] == y.out;
    } else {
      ByteKeeps(x, y, paclen);
      BytePaced(x, y, paclen);
      DeliverOne(x, y, k, paclen);
      DeliverPaced(Receive1(x, y.out[0], paclen), y.(out := y.out[1..]), k - 1, paclen);
    }
  }

  lemma BurstIgnoresNothing(x: Session)
    ensures TxReady(x).ignored == x.ignored
  {
  }

  lemma UserIgnoresNothing(x: Session, file: File)
    ensures SendFile(x, file).ignored == Accept(x).ignored == Reject(x).ignored == x.ignored
  {
  }

  lemma ActPaced(w: World, act: Action)
    requires Inv(w) && NotAhead(w.a, w.b)
    ensures Act(w, act).a.ignored == w.a.ignored && Act(w, act).b.ignored == w.b.ignored
  {
    match act {
      case Deliver(n, paclen) => DeliverPaced(w.a, w.b, if n < |w.b.out| then n else |w.b.out|, paclen);
      case Burst => BurstIgnoresNothing(w.a);
      case Type(text) =>
      case Offer(file) => UserIgnoresNothing(w.a, file);
      case _ => UserIgnoresNothing(w.a, File([], []));
    }
  }

  /** With one transfer on the modem a frame's own burst is counted first, and then no
      acknowledgement is ever ignored. */
  lemma {:induction false} PacedIgnoresNothing(events: seq<Event>)
    requires AllAllowed(events) && Paced(events)
    ensures Run(events).a.ignored == 0 && Run(events).b.ignored == 0
  {
    if events != [] {
      var init, e := events[..|events| - 1], events[|events| - 1];
      PacedIgnoresNothing(init);
      RunKeeps(init);
      if e.byA {
        ActPaced(Run(init), e.action);
      } else {
        ActPaced(Swap(Run(init)), e.action);
      }
    }
  }

  // ---------------------------------------------------------------- a sender completes unless it ignored one

  /** The transfer of a went on up to the last of the new events. */
  ghost predicate Throughout(events: seq<Event>, next: seq<Event>) {
    forall i :: |events| <= i < |next| ==> IsTx(Run(next[..i]).a)
  }

  /** A continuation of a run in which a sends, at the same pace and of the same transfer. */
  ghost predicate Continues(events: seq<Event>, next: seq<Event>) {
    AllAllowed(next) && events <= next && (Paced(events) ==> Paced(next)) && Throughout(events, next)
  }

  lemma ContinuesOn(events: seq<Event>, next: seq<Event>, last: seq<Event>)
    requires Continues(events, next) && Continues(next, last)
    ensures Continues(events, last)
  {
    forall i | |events| <= i < |last| ensures IsTx(Run(last[..i]).a) {
      if i < |next| {
        assert last[..i] == next[..i];
      }
    }
  }

  lemma ContinuesAtOnce(events: seq<Event>)
    requires AllAllowed(events)
    ensures Continues(events, events)
  {
  }

  /** One more event, seen from the world before it. */
  lemma OneMore(events: seq<Event>, e: Event) returns (next: seq<Event>)
    requires AllAllowed(events) && Allowed(e.action) && IsTx(Run(events).a)
    requires Paced(events) ==> PacedWorld(Happen(Run(events), e))
    ensures Continues(events, next) && Run(next) == Happen(Run(events), e)
  {
    next := events + [e];
    RunSnoc(events, e);
    assert next[..|events|] == events;
  }

  /** x' sends the file x sends. */
  predicate StillSends(x': Session, x: Session) {
    Sending(x') && x'.offered == x.offered && x'.sent == x.sent && x'.ignored == x.ignored && x'.framer == x.framer
  }

  lemma BurstPaced(x: Session, y: Session)
    requires Inv(World(x, y)) && Sending(x) && x.xfer.phase == Active
    ensures var x' := TxReady(x);
            && StillSends(x', x) && Inv(World(x', y))
            && (x'.xfer.phase == Active ==> |x'.xfer.pendingFrames| < |x.xfer.pendingFrames|)
            && (PacedWorld(World(x, y)) ==> PacedWorld(World(x', y)))
  {
    var x' := TxReady(x);
    BurstKeeps(x, y);
    assert Coming(y, x') == Coming(y, x);
    if x'.xfer.phase == Active {
      assert x.xfer.pendingFrames[0] in x.xfer.pendingFrames;
      ComingAfterPump(x, y, x');
    }
  }

  /** The world as a station sees it. */
  function Seen(w: World, byA: bool): World { if byA then w else Swap(w) }

  lemma InvSwap(x: Session, y: Session)
    requires Inv(World(x, y))
    ensures Inv(World(y, x))
  {
  }

  lemma SeenKeeps(events: seq<Event>, byA: bool)
    requires AllAllowed(events)
    ensures Inv(Seen(Run(events), byA))
  {
    RunKeeps(events);
    InvSwap(Run(events).a, Run(events).b);
  }

  /** The bursts one of the stations has left. */
  lemma {:induction false} CountedToTheEnd(events: seq<Event>, byA: bool) returns (next: seq<Event>)
    requires AllAllowed(events) && IsTx(Run(events).a) && Sending(Seen(Run(events), byA).a)
    ensures Continues(events, next)
    ensures var w, z := Seen(Run(events), byA), Seen(Run(next), byA);
            z.b == w.b && StillSends(z.a, w.a) && z.a.xfer.phase == AwaitingAF
    decreases |Seen(Run(events), byA).a.xfer.pendingFrames|, Seen(Run(events), byA).a.xfer.phase == Active
  {
    var w := Seen(Run(events), byA);
    if w.a.xfer.phase == AwaitingAF {
      next := events;
      ContinuesAtOnce(events);
    } else {
      SeenKeeps(events, byA);
      BurstPaced(w.a, w.b);
      var step := OneMore(events, Event(byA, Burst));
      next := CountedToTheEnd(step, byA);
      ContinuesOn(events, step, next);
    }
  }

  /** Everything y has put on the link, read by x. */
  lemma DrainPaced(x: Session, y: Session, paclen: int)
    requires Inv(World(x, y))
    ensures var x', y' := Receive(x, y.out, paclen), y.(out := []);
            && Inv(World(x', y')) && NoNewClaim(x, x')
            && (NotAhead(x, y) ==> NotAhead(x', y') && x'.ignored == x.ignored)
            && Coming(y', x') == Queued(y.xfer.pendingFrames) && Rev(Coming(y', x')) == []
  {
    PrefixEnds(y.out);
    assert y.out[|y.out|..] == [];
    DeliverKeeps(x, y, |y.out|, paclen);
    ReceiveClaimsNothing(x, y.out, paclen);
    if NotAhead(x, y) {
      DeliverPaced(x, y, |y.out|, paclen);
    }
    Unit(Queued(y.xfer.pendingFrames));
    QueueHasNoAnswers(y.xfer.pendingFrames);
  }

  lemma NothingLeftMeansAcked(x: Session, y: Session)
    requires Inv(World(y, x)) && Sending(x) && x.ignored == 0 && Fwd(Coming(x, y)) == []
    ensures Acked(x, y, [], [AF_FRAME])
  {
    assert Direction(x, y, [], Rev(Coming(y, x)));
    assert !Streaming(x, y, [], Rev(Coming(y, x)));
  }

  /** A sender that awaits the acknowledgement has nothing left in its queue, so its peer can finish. */
  lemma PeerFinishes(x: Session, y: Session, paclen: int)
    requires Inv(World(y, x)) && Sending(x) && x.xfer.phase == AwaitingAF && x.ignored == 0
    ensures var y', x' := Receive(y, x.out, paclen), x.(out := []);
            && Inv(World(y', x')) && OneAhead(x', y') && !IsRx(y')
            && (NotAhead(y, x) ==> NotAhead(y', x'))
  {
    DrainPaced(y, x, paclen);
    var y', x' := Receive(y, x.out, paclen), x.(out := []);
    assert x'.xfer.pendingFrames == [];
    NothingLeftMeansAcked(x', y');
  }

  /** And then the acknowledgement that is under way reports the file. */
  lemma AckReports(x: Session, y: Session, paclen: int)
    requires Inv(World(x, y)) && Sending(x) && x.xfer.phase == AwaitingAF && x.ignored == 0
    requires OneAhead(x, y) && !IsRx(y)
    ensures var x', y' := Receive(x, y.out, paclen), y.(out := []);
            && Inv(World(x', y')) && !IsTx(x') && x'.sent == x.sent + [x.offered] && Delivered(y'.notices) == x'.sent
  {
    DrainPaced(x, y, paclen);
    ReceiveAwaiting(x, y.out, paclen, 0);
    assert x.sent + [x.offered] != x.sent;
  }

  /** A peer that is not receiving and whose frames were all counted is not ahead of anything. */
  lemma IdlePaced(x: Session, y: Session)
    requires Inv(World(x, y)) && !IsRx(y) && NotAhead(x, y)
    ensures !(IsTx(x) && x.xfer.phase == Active)
  {
  }

  /** A station reads everything its peer put on the link. */
  function Drain(w: World, byA: bool, paclen: int): World {
    if byA then World(Receive(w.a, w.b.out, paclen), w.b.(out := []))
    else World(w.a.(out := []), Receive(w.b, w.a.out, paclen))
  }

  lemma OneLonger(events: seq<Event>, next: seq<Event>)
    requires AllAllowed(next) && |next| == |events| + 1 && next[..|events|] == events && IsTx(Run(events).a)
    requires Paced(events) ==> PacedWorld(Run(next))
    ensures Continues(events, next)
  {
  }

  /** A station has read everything its peer put on the link. */
  lemma Drained(events: seq<Event>, byA: bool, paclen: int) returns (next: seq<Event>)
    requires AllAllowed(events) && IsTx(Run(events).a)
    requires Paced(events) ==> PacedWorld(Drain(Run(events), byA, paclen))
    ensures Continues(events, next) && Run(next) == Drain(Run(events), byA, paclen)
  {
    next := DeliverAll(events, byA, paclen);
    OneLonger(events, next);
  }

  /** The transfer of a has been delivered and reported, and its user told so. */
  predicate Done(w: World, z: World) {
    && !IsTx(z.a) && z.a.sent == w.a.sent + [w.a.offered] && Delivered(z.b.notices) == z.a.sent
    && Reported(z.a.notices) == Receipts(z.a.sent)
  }

  lemma ReadThrough(events: seq<Event>, paclen: int) returns (next: seq<Event>)
    requires AllAllowed(events) && Run(events).a.xfer.phase == AwaitingAF
    requires Sending(Run(events).a) && Run(events).a.ignored == 0
    ensures Continues(events, next)
    ensures var w, z := Run(events), Run(next);
            && z.a == w.a.(out := []) && OneAhead(z.a, z.b) && !IsRx(z.b)
  {
    var w := Run(events);
    RunKeeps(events);
    InvSwap(w.a, w.b);
    PeerFinishes(w.a, w.b, paclen);
    next := Drained(events, false, paclen);
  }

  lemma ReadBack(events: seq<Event>, paclen: int) returns (next: seq<Event>)
    requires AllAllowed(events) && Run(events).a.xfer.phase == AwaitingAF
    requires Sending(Run(events).a) && Run(events).a.ignored == 0
    requires OneAhead(Run(events).a, Run(events).b) && !IsRx(Run(events).b)
    ensures Continues(events, next)
    ensures Done(Run(events), Run(next))
  {
    var w := Run(events);
    RunKeeps(events);
    AckReports(w.a, w.b, paclen);
    if Paced(events) {
      DrainPaced(w.a, w.b, paclen);
      InvSwap(w.a, w.b);
      IdlePaced(w.b, w.a);
    }
    next := Drained(events, true, paclen);
  }

  /** Whatever came before: as long as no acknowledgement was ignored, some continuation delivers the
      file that is being sent and reports it, and it keeps the pace if the run so far did. */
  lemma SenderCompletes(events: seq<Event>, paclen: int) returns (next: seq<Event>)
    requires AllAllowed(events) && Sending(Run(events).a) && Run(events).a.ignored == 0
    ensures Continues(events, next)
    ensures Done(Run(events), Run(next))
  {
    var counted := CountedToTheEnd(events, true);
    var read := ReadThrough(counted, paclen);
    next := ReadBack(read, paclen);
    ContinuesOn(events, counted, read);
    ContinuesOn(events, read, next);
  }

  ghost predicate CanReport(events: seq<Event>) {
    exists next: seq<Event> :: events <= next && AllAllowed(next)
      && Run(next).a.sent == Run(events).a.sent + [Run(events).a.offered]
  }

  /** In every run, a file being sent can still be reported as sent exactly when no acknowledgement of
      it was ignored. */
  lemma ReportableIff(events: seq<Event>)
    requires AllAllowed(events) && Sending(Run(events).a)
    ensures CanReport(events) <==> Run(events).a.ignored == 0
  {
    var w := Run(events);
    if w.a.ignored == 0 {
      var next := SenderCompletes(events, 128);
      assert Run(next).a.sent == w.a.sent + [w.a.offered];
    } else {
      forall next: seq<Event> | events <= next && AllAllowed(next)
        ensures Run(next).a.sent != w.a.sent + [w.a.offered]
      {
        assert events + next[|events|..] == next;
        LostForGood(events, next[|events|..]);
      }
    }
  }

  // ---------------------------------------------------------------- the other station

  function Mirror(events: seq<Event>): seq<Event> {
    if events == [] then []
    else
      var last := events[|events| - 1];
      Mirror(events[..|events| - 1]) + [Event(!last.byA, last.action)]
  }

  /** The two stations are alike: what holds of one in every run holds of the other. */
  lemma {:induction false} MirrorRun(events: seq<Event>)
    ensures Run(Mirror(events)) == Swap(Run(events))
  {
    if events != [] {
      var init, last := events[..|events| - 1], events[|events| - 1];
      MirrorRun(init);
      RunSnoc(Mirror(init), Event(!last.byA, last.action));
    }
  }

  // ---------------------------------------------------------------- an acknowledgement that comes early

  lemma EarlyAnswers(x: Session, paclen: int) returns (g: Framer)
    requires x.framer.phase == Idle && x.xfer.phase == Active
    ensures Receive(x, BuildRF() + BuildAF(), paclen) == x.(framer := g, ignored := x.ignored + 1)
  {
    var rf, af := Frame(RF, []), Frame(AF, []);
    assert BuildRF() == Encode(rf) && BuildAF() == Encode(af);
    g := OneReceive(x, rf, paclen);
    ReceiveAppend(x, Encode(rf), Encode(af), paclen);
    g := OneReceive(x.(framer := g), af, paclen);
  }

  lemma LastFrameOut(x: Session, file: File, paclen: int)
    requires OfferMade(x, file)
    ensures var plan := Plan(file.name, |file.data|, file.data, paclen);
            && |plan| > 0
            && var r := Bursts(StartDataPhase(x, paclen), |plan| - 1);
               && r.xfer.phase == Active && r.out == Flatten(plan) && r.framer == x.framer && Reported(r.notices) == []
  {
    var plan := Plan(file.name, |file.data|, file.data, paclen);
    PumpRun(x, paclen, |plan| - 1);
    BurstsKeep(StartDataPhase(x, paclen), |plan| - 1);
    Told(x.notices, Started(Tx, file.name, |file.data|, Active));
    assert plan[..|plan|] == plan && x.out + Flatten(plan) == Flatten(plan);
  }

  lemma LastFrameExists(file: File, paclen: int)
    ensures |Plan(file.name, |file.data|, file.data, paclen)| > 0
  {
  }

  /** It does happen when the pace is not kept: for every file there is a run that delivers it and
      whose sender has read and ignored the acknowledgement, so that no continuation reports it. */
  lemma EarlyAckIsLost(file: File, paclen: int) returns (events: seq<Event>)
    requires Sendable(file) && file.name != [] && file.data != []
    ensures AllAllowed(events) && !CanReport(events) && !Paced(events)
    ensures var w := Run(events);
            && Delivered(w.b.notices) == [file] && Reported(w.a.notices) == [] && Sending(w.a)
            && w.a.out == [] && w.b.out == [] && w.b.xfer == NO_XFER
  {
    var x, y;
    var plan := Plan(file.name, |file.data|, file.data, paclen);
    LastFrameExists(file, paclen);
    events, x, y := Streamed(file, paclen, |plan| - 1);
    LastFrameOut(x, file, paclen);
    events := DeliverAll(events, false, paclen);
    PlanReceived(y, file, paclen);
    events := DeliverAll(events, true, paclen);
    var r := Bursts(StartDataPhase(x, paclen), |plan| - 1);
    var g := EarlyAnswers(r.(out := []), paclen);
    LostIsAcked(events);
    ReportableIff(events);
    if Paced(events) {
      PacedIgnoresNothing(events);
    }
  }
}
