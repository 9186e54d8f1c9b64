/** When a transfer that was asked for can still complete: unless its request was refused, or will be
    because it finds the peer busy with a transfer of its own. */
module YappRequests {
  import opened Bytes
  import opened YappFrames
  import opened YappSession
  import opened YappLink
  import opened YappSafety
  import opened YappHistory
  import opened YappCompletes
  import opened YappAcks

  /** Among frames to come, the answer that ends the transfer of the station that reads them comes
      before any frame of a transfer from the other one. */
  predicate AnswerFirst(c: seq<Frame>) {
    c != []
    && (c[0].kind in {AF, CN} || (c[0].kind !in {SI, HD, DT, EF} && AnswerFirst(c[1..])))
  }

  /** Where y stands with c to come: it holds no request, and no request comes or it comes too early. */
  predicate ShutTo(y: Session, c: seq<Frame>) {
    !IsRx(y) && (Fwd(c) == [] || (IsTx(y) && !AnswerFirst(c)))
  }

  /** The request of x was refused, or will be. */
  predicate Doomed(x: Session, y: Session) { ShutTo(y, Coming(x, y)) }

  lemma {:induction false} AnswerFirstAppend(c: seq<Frame>, d: seq<Frame>)
    requires Fwd(c) != []
    ensures AnswerFirst(c + d) == AnswerFirst(c)
  {
    assert (c + d)[0] == c[0] && (c + d)[1..] == c[1..] + d;
    if c[0].kind !in {SI, HD, DT, EF} {
      AnswerFirstAppend(c[1..], d);
    }
  }

  /** What comes behind a frame. */
  lemma Behind(g: Frame, c: seq<Frame>)
    ensures Fwd([g] + c) == Fwd([g]) + Fwd(c) && Rev([g] + c) == Rev([g]) + Rev(c)
    ensures AnswerFirst([g] + c) <==> g.kind in {AF, CN} || (g.kind !in {SI, HD, DT, EF} && AnswerFirst(c))
  {
    FilterAppend([g], c);
    assert ([g] + c)[0] == g && ([g] + c)[1..] == c;
  }

  // ---------------------------------------------------------------- frames that reach the peer

  /** y, reading g and then c from x, which asks. */
  predicate Reads(y: Session, x: Session, g: Frame, c: seq<Frame>, df: seq<Frame>, dr: seq<Frame>) {
    && Asking(x) && Sound(y) && Direction(y, x, df, Rev([g]) + Rev(c)) && Direction(x, y, Fwd([g]) + Fwd(c), dr)
  }

  /** What can come from a station that asks. */
  lemma AskerSends(y: Session, x: Session, g: Frame, c: seq<Frame>, df: seq<Frame>, dr: seq<Frame>)
    requires Reads(y, x, g, c, df, dr)
    ensures g.kind !in {RR, HD, DT, EF}
    ensures g.kind == AF ==> Sending(y)
    ensures g.kind == CN ==> IsTx(y)
    ensures g.kind == SI ==> Fwd(c) == [] && !IsRx(y)
  {
    FilterOne(g);
    if g.kind == RR {
      GrantedHead(y, x, g, df, Rev(c));
    } else if g.kind == AF {
      AckedHead(y, x, g, df, Rev(c));
    } else if g.kind == CN {
      RefusedHead(y, x, g, df, Rev(c));
    } else if g.kind == SI {
      AskedHead(x, y, g, Fwd(c), dr);
    } else if g.kind in {HD, DT, EF} {
      StreamingHead(x, y, g, Fwd(c), dr);
    }
  }

  /** Once shut, the peer stays shut, whatever it reads. */
  lemma FrameShuts(y: Session, x: Session, g: Frame, c: seq<Frame>, df: seq<Frame>, dr: seq<Frame>, paclen: int)
    requires Reads(y, x, g, c, df, dr) && ShutTo(y, [g] + c)
    ensures ShutTo(Handle(y, g, paclen), c)
  {
    AskerSends(y, x, g, c, df, dr);
    Behind(g, c);
    FilterOne(g);
  }

  /** The peer is open to the request: it holds it, or it will be free of its own transfer by then. */
  predicate OpenTo(y: Session, c: seq<Frame>) {
    if IsRx(y) then y.xfer.phase == AwaitingAccept
    else Fwd(c) == [SI_FRAME] && (IsTx(y) ==> AnswerFirst(c) && y.xfer.phase != Active)
  }

  lemma HeldStays(y: Session, x: Session, g: Frame, c: seq<Frame>, df: seq<Frame>, dr: seq<Frame>, paclen: int)
    requires Reads(y, x, g, c, df, dr) && IsRx(y) && y.xfer.phase == AwaitingAccept
    ensures OpenTo(Handle(y, g, paclen), c)
  {
    AskerSends(y, x, g, c, df, dr);
  }

  lemma IdleTakes(y: Session, x: Session, g: Frame, c: seq<Frame>, df: seq<Frame>, dr: seq<Frame>, paclen: int)
    requires Reads(y, x, g, c, df, dr) && !y.xfer.active && Fwd([g] + c) == [SI_FRAME]
    ensures OpenTo(Handle(y, g, paclen), c)
  {
    AskerSends(y, x, g, c, df, dr);
    Behind(g, c);
    FilterOne(g);
  }

  /** Frames that are no answer and no request leave a busy peer as it is. */
  lemma StillBusy(y: Session, g: Frame, c: seq<Frame>, paclen: int)
    requires g.kind in {RF, AT, CA, ET} && OpenTo(y, c)
    ensures OpenTo(Handle(y, g, paclen), c)
  {
  }

  lemma BusyFrees(y: Session, x: Session, g: Frame, c: seq<Frame>, df: seq<Frame>, dr: seq<Frame>, paclen: int)
    requires Reads(y, x, g, c, df, dr) && IsTx(y) && y.xfer.phase != Active
    requires Fwd([g] + c) == [SI_FRAME] && AnswerFirst([g] + c)
    ensures OpenTo(Handle(y, g, paclen), c)
  {
    AskerSends(y, x, g, c, df, dr);
    Behind(g, c);
    FilterOne(g);
    match g.kind {
      case SI => assert false;
      case AF =>
      case CN =>
      case _ => StillBusy(y, g, c, paclen);
    }
  }

  lemma FrameOpens(y: Session, x: Session, g: Frame, c: seq<Frame>, df: seq<Frame>, dr: seq<Frame>, paclen: int)
    requires Reads(y, x, g, c, df, dr) && OpenTo(y, [g] + c)
    ensures OpenTo(Handle(y, g, paclen), c)
  {
    if IsRx(y) {
      HeldStays(y, x, g, c, df, dr, paclen);
    } else if y.xfer.active {
      BusyFrees(y, x, g, c, df, dr, paclen);
    } else {
      IdleTakes(y, x, g, c, df, dr, paclen);
    }
  }

  // ---------------------------------------------------------------- bytes that reach the peer

  /** Both predicates look at some fields only. */
  lemma SameStanding(y: Session, z: Session, c: seq<Frame>)
    requires z.xfer == y.xfer
    ensures OpenTo(z, c) == OpenTo(y, c) && ShutTo(z, c) == ShutTo(y, c)
  {
  }

  /** A byte that completes a frame has it handled. */
  lemma DispatchedByte(y: Session, y1: Session, b: byte, paclen: int)
    requires y1 == y.(framer := Step(y.framer, b).0) && Step(y.framer, b).1.Dispatch?
    ensures Receive1(y, b, paclen) == Handle(y1, Step(y.framer, b).1.frame, paclen).(framer := y1.framer)
  {
    HandleIgnoresFramer(y, Step(y.framer, b).1.frame, paclen, y1.framer);
  }

  /** y1 is y and x1 is x, with the byte gone and nothing handled yet; z is y in the end. */
  predicate Standing(x: Session, y: Session, x1: Session, z: Session) {
    && Asking(x1) && (Doomed(x, y) ==> Doomed(x1, z))
    && (OpenTo(y, Coming(x, y)) ==> OpenTo(z, Coming(x1, z)))
  }

  lemma FrameReachesPeer(y: Session, x: Session, g: Frame, paclen: int)
    requires Asking(x) && Before(y, x, g, Fwd(Coming(y, x)), Rev(Coming(y, x)), Fwd(Coming(x, y)), Rev(Coming(x, y)))
    ensures ShutTo(y, [g] + Coming(x, y)) ==> ShutTo(Handle(y, g, paclen), Coming(x, y))
    ensures OpenTo(y, [g] + Coming(x, y)) ==> OpenTo(Handle(y, g, paclen), Coming(x, y))
  {
    var c, df, dr := Coming(x, y), Fwd(Coming(y, x)), Rev(Coming(y, x));
    assert Reads(y, x, g, c, df, dr);
    if ShutTo(y, [g] + c) {
      FrameShuts(y, x, g, c, df, dr, paclen);
    }
    if OpenTo(y, [g] + c) {
      FrameOpens(y, x, g, c, df, dr, paclen);
    }
  }

  /** What is to come to y depends on its framer alone. */
  lemma AfterHandling(x: Session, y: Session, z: Session, q: Framer)
    requires y.framer == q
    ensures Coming(x, z.(framer := q)) == Coming(x, y)
  {
  }

  lemma PeerFrame(x: Session, y: Session, x1: Session, y1: Session, z: Session, g: Frame, paclen: int)
    requires Inv(World(y, x)) && x.out != [] && Asking(x) && Step(y.framer, x.out[0]).1 == Dispatch(g)
    requires y1 == y.(framer := Step(y.framer, x.out[0]).0) && x1 == x.(out := x.out[1..])
    requires z == Handle(y1, g, paclen).(framer := y1.framer)
    ensures Standing(x, y, x1, z)
  {
    ComingAfterByte(x, y);
    SameStanding(y, y1, Coming(x, y));
    FrameTaken(y, x, y1, x1, g);
    FrameReachesPeer(y1, x1, g, paclen);
    AfterHandling(x1, y1, Handle(y1, g, paclen), y1.framer);
    SameStanding(Handle(y1, g, paclen), z, Coming(x1, y1));
  }

  lemma PeerQuiet(x: Session, y: Session, x1: Session, y1: Session, z: Session)
    requires x.out != [] && Asking(x) && !Step(y.framer, x.out[0]).1.Dispatch?
    requires y1 == y.(framer := Step(y.framer, x.out[0]).0) && x1 == x.(out := x.out[1..]) && z == y1.(text := z.text)
    ensures Standing(x, y, x1, z)
  {
    ComingAfterByte(x, y);
    Unit(Coming(x1, y1));
    assert Coming(x1, z) == Coming(x1, y1);
    SameStanding(y, z, Coming(x, y));
  }

  /** One byte from x reaches y. */
  lemma ByteReachesPeer(x: Session, y: Session, paclen: int)
    requires Inv(World(y, x)) && x.out != [] && Asking(x)
    ensures Standing(x, y, x.(out := x.out[1..]), Receive1(y, x.out[0], paclen))
  {
    var (q, o) := Step(y.framer, x.out[0]);
    var y1, x1 := y.(framer := q), x.(out := x.out[1..]);
    if o.Dispatch? {
      DispatchedByte(y, y1, x.out[0], paclen);
      PeerFrame(x, y, x1, y1, Receive1(y, x.out[0], paclen), o.frame, paclen);
    } else {
      PeerQuiet(x, y, x1, y1, Receive1(y, x.out[0], paclen));
    }
  }

  lemma {:induction false} BytesReachPeer(x: Session, y: Session, k: nat, paclen: int)
    requires Inv(World(y, x)) && k <= |x.out| && Asking(x)
    ensures Standing(x, y, x.(out := x.out[k..]), Receive(y, x.out[..k], paclen))
    decreases k
  {
    if k == 0 {
      assert x.out[0..] == x.out;
    } else {
      ByteKeeps(y, x, paclen);
      ByteReachesPeer(x, y, paclen);
      DeliverOne(y, x, k, paclen);
      BytesReachPeer(x.(out := x.out[1..]), Receive1(y, x.out[0], paclen), k - 1, paclen);
    }
  }

  // ---------------------------------------------------------------- bytes that reach the asking station

  /** The transfer of x is over and was not reported. */
  predicate Over(x': Session, x: Session) { !IsTx(x') && x'.sent == x.sent }

  predicate Hopeless(x: Session, y: Session) { Asking(x) && Doomed(x, y) }

  /** x, with nothing queued, answers. */
  lemma ComingAfterReply(x: Session, y: Session, f: Frame, x': Session)
    requires Whole(x, y) && WellFormed(f) && x.xfer.pendingFrames == x'.xfer.pendingFrames == []
    requires x'.out == x.out + Encode(f)
    ensures Coming(x', y) == Coming(x, y) + [f]
  {
    ChannelAppend(x, y, Encode(f));
    DecodedFrame(f);
    Unit(Dispatched(Outs(y.framer, x.out)));
    Unit(Dispatched(Outs(y.framer, x.out)) + [f]);
  }

  lemma ReplyShuts(x: Session, y: Session, f: Frame, x': Session)
    requires Hopeless(x, y) && Whole(x, y) && WellFormed(f) && f.kind !in {SI, HD, DT, EF}
    requires x.xfer.pendingFrames == [] && x'.xfer == x.xfer && x'.out == x.out + Encode(f)
    ensures Hopeless(x', y)
  {
    ComingAfterReply(x, y, f, x');
    FilterAppend(Coming(x, y), [f]);
    FilterOne(f);
    if Fwd(Coming(x, y)) != [] {
      AnswerFirstAppend(Coming(x, y), [f]);
    }
  }

  /** Neither a grant nor an acknowledgement nor a file can reach a hopeless station. */
  lemma NoneReaches(x: Session, y: Session, g: Frame)
    requires Hopeless(x, y)
    requires Before(x, y, g, Fwd(Coming(x, y)), Rev(Coming(x, y)), Fwd(Coming(y, x)), Rev(Coming(y, x)))
    ensures g.kind in {SI, ET, CN, RF, AT, CA}
  {
    FilterOne(g);
    if g.kind == RR {
      GrantedHead(x, y, g, Fwd(Coming(x, y)), Rev(Coming(y, x)));
    } else if g.kind == AF {
      AckedHead(x, y, g, Fwd(Coming(x, y)), Rev(Coming(y, x)));
    } else if g.kind in {HD, DT, EF} {
      StreamingHead(y, x, g, Fwd(Coming(y, x)), Rev(Coming(x, y)));
    }
  }

  /** What can reach it leaves it so or ends its transfer. */
  lemma FrameReachesAsker(x: Session, y: Session, g: Frame, paclen: int)
    requires Hopeless(x, y) && Whole(x, y)
    requires Before(x, y, g, Fwd(Coming(x, y)), Rev(Coming(x, y)), Fwd(Coming(y, x)), Rev(Coming(y, x)))
    ensures var x' := Handle(x, g, paclen); Hopeless(x', y) || Over(x', x)
  {
    NoneReaches(x, y, g);
    match g.kind {
      case SI => ReplyShuts(x, y, CN_FRAME, OnSI(x));
      case ET => ReplyShuts(x, y, Frame(AT, []), Handle(x, g, paclen));
      case _ =>
    }
  }

  lemma AskerFrame(x: Session, y: Session, x1: Session, y1: Session, z: Session, g: Frame, paclen: int)
    requires Inv(World(x, y)) && y.out != [] && Hopeless(x, y) && Step(x.framer, y.out[0]).1 == Dispatch(g)
    requires x1 == x.(framer := Step(x.framer, y.out[0]).0) && y1 == y.(out := y.out[1..])
    requires z == Handle(x1, g, paclen).(framer := x1.framer)
    ensures Hopeless(z, y1) || Over(z, x)
  {
    assert Coming(x1, y1) == Coming(x, y);
    FrameTaken(x, y, x1, y1, g);
    FrameReachesAsker(x1, y1, g, paclen);
    assert Coming(z, y1) == Coming(Handle(x1, g, paclen), y1);
  }

  lemma AskerQuiet(x: Session, y: Session, z: Session, y1: Session)
    requires Hopeless(x, y) && y.out != []
    requires z == x.(framer := z.framer, text := z.text) && y1 == y.(out := y.out[1..])
    ensures Hopeless(z, y1)
  {
    assert Coming(z, y1) == Coming(x, y);
  }

  lemma ByteReachesAsker(x: Session, y: Session, paclen: int)
    requires Inv(World(x, y)) && y.out != [] && Hopeless(x, y)
    ensures var x', y' := Receive1(x, y.out[0], paclen), y.(out := y.out[1..]); Hopeless(x', y') || Over(x', x)
  {
    var (q, o) := Step(x.framer, y.out[0]);
    var x1, y1, z := x.(framer := q), y.(out := y.out[1..]), Receive1(x, y.out[0], paclen);
    if o.Dispatch? {
      DispatchedByte(x, x1, y.out[0], paclen);
      AskerFrame(x, y, x1, y1, z, o.frame, paclen);
    } else {
      AskerQuiet(x, y, z, y1);
    }
  }

  lemma OneByteClaims(x: Session, b: byte, paclen: int)
    ensures NoNewClaim(x, Receive1(x, b, paclen))
  {
    var (q, o) := Step(x.framer, b);
    if o.Dispatch? {
      HandleClaimsNothing(x, o.frame, paclen);
    }
  }

  lemma AskerStep(x: Session, y: Session, paclen: int)
    requires Inv(World(x, y)) && y.out != [] && Hopeless(x, y)
    ensures var x', y' := Receive1(x, y.out[0], paclen), y.(out := y.out[1..]);
            (Hopeless(x', y') && x'.sent == x.sent) || Over(x', x)
  {
    ByteReachesAsker(x, y, paclen);
    OneByteClaims(x, y.out[0], paclen);
  }

  lemma OverStays(x': Session, x: Session, chunk: seq<byte>, paclen: int)
    requires Over(x', x)
    ensures Over(Receive(x', chunk, paclen), x)
  {
    ReceiveClaimsNothing(x', chunk, paclen);
  }

  lemma {:induction false} BytesReachAsker(x: Session, y: Session, k: nat, paclen: int)
    requires Inv(World(x, y)) && k <= |y.out| && Hopeless(x, y)
    ensures var x', y' := Receive(x, y.out[..k], paclen), y.(out := y.out[k..]); Hopeless(x', y') || Over(x', x)
    decreases k
  {
    if k == 0 {
      assert y.out[0..] == y.out;
    } else {
      var x1, y1 := Receive1(x, y.out[0], paclen), y.(out := y.out[1..]);
      ByteKeeps(x, y, paclen);
      AskerStep(x, y, paclen);
      DeliverOne(x, y, k, paclen);
      if Hopeless(x1, y1) {
        BytesReachAsker(x1, y1, k - 1, paclen);
      } else {
        OverStays(x1, x, y1.out[..k - 1], paclen);
      }
    }
  }

  // ---------------------------------------------------------------- events

  /** An action of the asking station. */
  lemma AskerActs(w: World, act: Action)
    requires Inv(w) && Allowed(act) && Hopeless(w.a, w.b)
    ensures var z := Act(w, act); Hopeless(z.a, z.b) || Over(z.a, w.a)
  {
    match act {
      case Deliver(n, paclen) => BytesReachAsker(w.a, w.b, if n < |w.b.out| then n else |w.b.out|, paclen);
      case Type(text) => ComingAfterText(w.a, w.b, text);
      case _ => assert Act(w, act) == w;
    }
  }

  /** What the peer does by itself changes nothing: it keeps sending, or begins to. */
  lemma PeerKeepsOn(x: Session, y: Session, z: Session)
    requires Hopeless(x, y) && z.framer == y.framer && !IsRx(z) && (IsTx(y) ==> IsTx(z))
    ensures Hopeless(x, z)
  {
    assert Coming(x, z) == Coming(x, y);
  }

  lemma BurstKeepsOn(y: Session)
    requires Sound(y) && !IsRx(y)
    ensures var z := TxReady(y); z.framer == y.framer && !IsRx(z) && (IsTx(y) ==> IsTx(z))
  {
  }

  lemma UserKeepsOn(y: Session, file: File)
    requires Sound(y) && !IsRx(y)
    ensures var z := SendFile(y, file); z.framer == y.framer && !IsRx(z) && (IsTx(y) ==> IsTx(z))
    ensures Accept(y) == y && Reject(y) == y
  {
  }

  /** An action of its peer. */
  lemma PeerActs(x: Session, y: Session, act: Action)
    requires Inv(World(y, x)) && Hopeless(x, y)
    ensures var z := Act(World(y, x), act); Hopeless(z.b, z.a) && z.b.sent == x.sent && z.b.offered == x.offered
  {
    match act {
      case Deliver(n, paclen) => BytesReachPeer(x, y, if n < |x.out| then n else |x.out|, paclen);
      case Burst =>
        BurstKeepsOn(y);
        PeerKeepsOn(x, y, TxReady(y));
      case Offer(file) =>
        UserKeepsOn(y, file);
        PeerKeepsOn(x, y, SendFile(y, file));
      case Type(text) => PeerKeepsOn(x, y, Send(y, text));
      case _ => UserKeepsOn(y, File([], []));
    }
  }

  lemma EventDooms(w: World, e: Event)
    requires Inv(w) && Allowed(e.action) && Hopeless(w.a, w.b)
    ensures var z := Happen(w, e); z.a.sent == w.a.sent && (Hopeless(z.a, z.b) || !IsTx(z.a))
  {
    if e.byA {
      AskerActs(w, e.action);
      SenderAct(w, e.action);
    } else {
      InvSwap(w.a, w.b);
      PeerActs(w.a, w.b, e.action);
    }
  }

  /** As long as the transfer goes on in a continuation of such a run, it stays hopeless. */
  lemma {:induction false} StaysHopeless(events: seq<Event>, next: seq<Event>)
    requires AllAllowed(next) && events <= next && Throughout(events, next)
    requires Hopeless(Run(events).a, Run(events).b)
    ensures var w, z := Run(events), Run(next);
            z.a.sent == w.a.sent && (Hopeless(z.a, z.b) || !IsTx(z.a))
    decreases |next|
  {
    if |next| > |events| {
      var init, e := next[..|next| - 1], next[|next| - 1];
      assert next == init + [e] && forall d :: d in init ==> d in next;
      assert forall i :: |events| <= i < |init| ==> init[..i] == next[..i];
      StaysHopeless(events, init);
      RunKeeps(init);
      assert e in next;
      EventDooms(Run(init), e);
      RunSnoc(init, e);
    } else {
      assert next == events;
    }
  }

  // ---------------------------------------------------------------- otherwise it can complete

  /** A sender that is not hopeless finds its peer open once the peer has counted its own bursts. */
  lemma NotDoomedOpens(x: Session, y: Session)
    requires Inv(World(x, y)) && Asking(x) && !Doomed(x, y) && !(IsTx(y) && y.xfer.phase == Active)
    ensures OpenTo(y, Coming(x, y)) || (IsRx(y) && y.xfer.phase == Active)
  {
    assert Direction(x, y, Fwd(Coming(x, y)), Rev(Coming(y, x)));
  }

  /** The request reaches an open peer, which then holds it. */
  lemma RequestArrives(x: Session, y: Session, paclen: int)
    requires Inv(World(y, x)) && Asking(x) && OpenTo(y, Coming(x, y))
    ensures var y' := Receive(y, x.out, paclen); IsRx(y') && y'.xfer.phase == AwaitingAccept
  {
    PrefixEnds(x.out);
    assert x.out[|x.out|..] == [];
    BytesReachPeer(x, y, |x.out|, paclen);
    var x', y' := x.(out := []), Receive(y, x.out, paclen);
    assert Outs(y'.framer, []) == [] && x'.xfer.pendingFrames == [];
    Unit(Queued(x'.xfer.pendingFrames));
    assert Coming(x', y') == [];
  }

  /** The transfer x had asked for is under way and no acknowledgement of it was ignored. */
  predicate Underway(x': Session, x: Session) {
    Sending(x') && x'.ignored == 0 && x'.offered == x.offered && x'.sent == x.sent
  }

  /** The grant reaches the sender. */
  lemma GrantStarts(x: Session, y: Session, paclen: int)
    requires Inv(World(x, y)) && Asking(x) && IsRx(y) && y.xfer.phase == Active
    ensures var x', y' := Receive(x, y.out, paclen), y.(out := []);
            Underway(x', x) && (NotAhead(x, y) ==> NotAhead(x', y'))
  {
    DrainPaced(x, y, paclen);
  }

  lemma AcceptGrants(y: Session)
    requires Sound(y) && IsRx(y) && y.xfer.phase == AwaitingAccept
    ensures IsRx(Accept(y)) && Accept(y).xfer.phase == Active
  {
  }

  /** a asks and b is receiving, in this phase. */
  predicate Held(w: World, phase: XferPhase) { Asking(w.a) && IsRx(w.b) && w.b.xfer.phase == phase }

  lemma GrantedGoesOn(events: seq<Event>, paclen: int) returns (next: seq<Event>)
    requires AllAllowed(events) && Held(Run(events), Active)
    ensures Continues(events, next) && Underway(Run(next).a, Run(events).a)
  {
    var w := Run(events);
    RunKeeps(events);
    GrantStarts(w.a, w.b, paclen);
    next := Drained(events, true, paclen);
  }

  lemma OfferedGoesOn(events: seq<Event>, paclen: int) returns (next: seq<Event>)
    requires AllAllowed(events) && Held(Run(events), AwaitingAccept)
    ensures Continues(events, next) && Underway(Run(next).a, Run(events).a)
  {
    RunKeeps(events);
    AcceptGrants(Run(events).b);
    var granted := OneMore(events, Event(false, AcceptOffer));
    next := GrantedGoesOn(granted, paclen);
    ContinuesOn(events, granted, next);
  }

  lemma OpenGoesOn(events: seq<Event>, paclen: int) returns (next: seq<Event>)
    requires AllAllowed(events) && Asking(Run(events).a) && OpenTo(Run(events).b, Coming(Run(events).a, Run(events).b))
    ensures Continues(events, next) && Underway(Run(next).a, Run(events).a)
  {
    var w := Run(events);
    SeenKeeps(events, false);
    RequestArrives(w.a, w.b, paclen);
    var offered := Drained(events, false, paclen);
    next := OfferedGoesOn(offered, paclen);
    ContinuesOn(events, offered, next);
  }

  /** The peer counts its own bursts first. */
  lemma PeerCounts(events: seq<Event>) returns (next: seq<Event>)
    requires AllAllowed(events) && Asking(Run(events).a) && !Doomed(Run(events).a, Run(events).b)
    ensures Continues(events, next)
    ensures var w, z := Run(events), Run(next);
            z.a == w.a && !Doomed(z.a, z.b) && !(IsTx(z.b) && z.b.xfer.phase == Active)
  {
    var w := Run(events);
    next := events;
    ContinuesAtOnce(events);
    if IsTx(w.b) && w.b.xfer.phase == Active {
      next := CountedToTheEnd(events, false);
      assert Coming(Run(next).a, Run(next).b) == Coming(w.a, w.b);
    }
  }

  /** Whatever came before, a transfer whose request is not doomed can complete: some continuation
      delivers the file and reports it. */
  lemma AskerCompletes(events: seq<Event>, paclen: int) returns (next: seq<Event>)
    requires AllAllowed(events) && Asking(Run(events).a) && !Doomed(Run(events).a, Run(events).b)
    ensures Continues(events, next) && Done(Run(events), Run(next))
  {
    var counted := PeerCounts(events);
    var w := Run(counted);
    RunKeeps(counted);
    NotDoomedOpens(w.a, w.b);
    var going;
    if OpenTo(w.b, Coming(w.a, w.b)) {
      going := OpenGoesOn(counted, paclen);
    } else {
      going := GrantedGoesOn(counted, paclen);
    }
    next := SenderCompletes(going, paclen);
    ContinuesOn(events, counted, going);
    ContinuesOn(events, going, next);
  }

  /** Some continuation of this very transfer reports it. */
  ghost predicate CanComplete(events: seq<Event>) {
    exists next: seq<Event> :: events <= next && AllAllowed(next) && Throughout(events, next)
      && Run(next).a.sent == Run(events).a.sent + [Run(events).a.offered]
  }

  /** Where a transfer can still complete. */
  predicate Promising(w: World) { if Asking(w.a) then !Doomed(w.a, w.b) else w.a.ignored == 0 }

  lemma PromisingCompletes(events: seq<Event>, paclen: int) returns (next: seq<Event>)
    requires AllAllowed(events) && IsTx(Run(events).a) && Promising(Run(events))
    ensures Continues(events, next) && Done(Run(events), Run(next))
  {
    RunKeeps(events);
    if Asking(Run(events).a) {
      next := AskerCompletes(events, paclen);
    } else {
      next := SenderCompletes(events, paclen);
    }
  }

  /** In every run, a transfer that is on can still complete exactly when, before it was granted, the
      peer holds its request or will be free when it comes, and after that, no acknowledgement of it
      was ignored. */
  lemma CompletesIff(events: seq<Event>)
    requires AllAllowed(events) && IsTx(Run(events).a)
    ensures CanComplete(events) <==> Promising(Run(events))
  {
    var w := Run(events);
    RunKeeps(events);
    if Promising(w) {
      var next := PromisingCompletes(events, 128);
      assert Run(next).a.sent == w.a.sent + [w.a.offered];
    } else if Asking(w.a) {
      forall next: seq<Event> | events <= next && AllAllowed(next) && Throughout(events, next)
        ensures Run(next).a.sent != w.a.sent + [w.a.offered]
      {
        StaysHopeless(events, next);
        assert w.a.sent + [w.a.offered] != w.a.sent;
      }
    } else {
      ReportableIff(events);
    }
  }

  /** With one transfer on the modem: every transfer under way, and every one whose request is not
      doomed, has a continuation at the same pace that completes it. */
  lemma PacedCompletes(events: seq<Event>, paclen: int) returns (next: seq<Event>)
    requires AllAllowed(events) && Paced(events)
    requires Sending(Run(events).a) || (Asking(Run(events).a) && !Doomed(Run(events).a, Run(events).b))
    ensures AllAllowed(next) && events <= next && Paced(next)
    ensures Done(Run(events), Run(next))
  {
    PacedIgnoresNothing(events);
    next := PromisingCompletes(events, paclen);
  }
}
