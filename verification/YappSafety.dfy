/** The invariant of the two-station system and the theorem it gives. */
module YappSafety {
  import opened Bytes
  import opened YappFrames
  import opened YappSession
  import opened YappLink

  predicate IsTx(s: Session) { s.xfer.active && s.xfer.dir == Tx }

  predicate IsRx(s: Session) { s.xfer.active && s.xfer.dir == Rx }

  predicate Sending(s: Session) { IsTx(s) && s.xfer.phase in {Active, AwaitingAF} }

  predicate Asking(s: Session) { IsTx(s) && s.xfer.phase == AwaitingRR }

  /** What one session's own fields always satisfy. */
  predicate Sound(s: Session) {
    && s.connected
    && (!s.xfer.active ==> s.xfer == NO_XFER)
    && (s.xfer.active ==> s.xfer.dir != NoDir)
    && (IsTx(s) ==>
          && s.xfer.phase in {AwaitingRR, Active, AwaitingAF} && !s.xfer.abortPending
          && s.xfer.name == s.offered.name && s.xfer.total == |s.offered.data|)
    && (Asking(s) ==> s.xfer.pendingData == s.offered.data)
    && (IsTx(s) && s.xfer.phase == Active ==>
          |s.xfer.pendingFrames| == s.xfer.framesPlanned - s.xfer.framesSent - 1)
    && (IsTx(s) && s.xfer.phase == AwaitingAF ==> s.xfer.framesSent >= s.xfer.framesPlanned)
    && (!(IsTx(s) && s.xfer.phase == Active) ==> s.xfer.pendingFrames == [])
    && (IsRx(s) ==> s.xfer.phase in {AwaitingAccept, Active})
    && (s.file.active ==> IsRx(s) && s.xfer.phase == Active)
    && Reported(s.notices) == Receipts(s.sent)
  }

  /** Everything queued is a transfer's own frame, whole. */
  predicate QueueOk(s: Session) { forall p :: p in s.xfer.pendingFrames ==> DataFrame(p) }

  /** What is being sent can be announced. */
  predicate OfferOk(s: Session) { IsTx(s) ==> Sendable(s.offered) }

  const SI_FRAME := Frame(SI, [])
  const RR_FRAME := Frame(RR, [])
  const AF_FRAME := Frame(AF, [])
  const CN_FRAME := Frame(CN, [])

  /** The sending user has been told about every file the receiving user has been given, and no
      acknowledgement has gone unheeded. */
  predicate Even(x: Session, y: Session) { Delivered(y.notices) == x.sent && x.ignored == 0 }

  predicate OneAhead(x: Session, y: Session) { Delivered(y.notices) == x.sent + [x.offered] }

  /** The stages of a transfer from x to y; f is what y has still to see of the transfer's
      frames, r what x has still to see of the answers. */
  predicate Calm(x: Session, y: Session, f: seq<Frame>, r: seq<Frame>) {
    !IsTx(x) && !IsRx(y) && f == [] && r == [] && Even(x, y)
  }

  predicate Asked(x: Session, y: Session, f: seq<Frame>, r: seq<Frame>) {
    Asking(x) && !IsRx(y) && f == [SI_FRAME] && r == [] && Even(x, y)
  }

  predicate Offered(x: Session, y: Session, f: seq<Frame>, r: seq<Frame>) {
    Asking(x) && IsRx(y) && y.xfer.phase == AwaitingAccept && f == [] && r == [] && Even(x, y)
  }

  predicate Refused(x: Session, y: Session, f: seq<Frame>, r: seq<Frame>) {
    Asking(x) && !IsRx(y) && f == [] && r == [CN_FRAME] && Even(x, y)
  }

  predicate Granted(x: Session, y: Session, f: seq<Frame>, r: seq<Frame>) {
    Asking(x) && IsRx(y) && y.xfer.phase == Active && !y.file.active && f == [] && r == [RR_FRAME] && Even(x, y)
  }

  /** What is left of the transfer, after what y already has, is the offered file. */
  predicate Completes(x: Session, y: Session, f: seq<Frame>) {
    if y.file.active then
      y.file.filename == x.offered.name && IsBody(f) && y.file.fileBuf + Payload(f) == x.offered.data
    else
      f != [] && f[0] == Frame(HD, HeaderBody(x.offered.name, |x.offered.data|))
      && IsBody(f[1..]) && Payload(f[1..]) == x.offered.data
  }

  predicate Streaming(x: Session, y: Session, f: seq<Frame>, r: seq<Frame>) {
    Sending(x) && IsRx(y) && y.xfer.phase == Active && r == [] && Even(x, y) && Completes(x, y, f)
  }

  /** The file is delivered and the acknowledgement under way, or read and ignored because it came
      before the last burst was reported. */
  predicate Acked(x: Session, y: Session, f: seq<Frame>, r: seq<Frame>) {
    Sending(x) && !IsRx(y) && f == [] && OneAhead(x, y)
    && ((r == [AF_FRAME] && x.ignored == 0) || (r == [] && x.ignored == 1))
  }

  predicate Direction(x: Session, y: Session, f: seq<Frame>, r: seq<Frame>) {
    || Calm(x, y, f, r) || Asked(x, y, f, r) || Offered(x, y, f, r) || Refused(x, y, f, r)
    || Granted(x, y, f, r) || Streaming(x, y, f, r) || Acked(x, y, f, r)
  }

  predicate Pair(x: Session, y: Session) {
    && Whole(x, y)
    && Direction(x, y, Fwd(Coming(x, y)), Rev(Coming(y, x)))
  }

  predicate Inv(w: World) {
    && Sound(w.a) && Sound(w.b) && QueueOk(w.a) && QueueOk(w.b) && OfferOk(w.a) && OfferOk(w.b)
    && Pair(w.a, w.b) && Pair(w.b, w.a)
  }

  // ---------------------------------------------------------------- what sending does to a channel

  lemma FilterInsert(c: seq<Frame>, f: Frame, q: seq<Frame>)
    requires Rev(q) == [] && (f.kind in {SI, HD, DT, EF} ==> q == [])
    ensures Fwd(c + [f] + q) == Fwd(c + q) + Fwd([f])
    ensures Rev(c + [f] + q) == Rev(c + q) + Rev([f])
  {
    FilterAppend(c, q);
    FilterAppend(c + [f], q);
    FilterAppend(c, [f]);
    FilterOne(f);
  }

  lemma {:induction false} QueueHasNoAnswers(frames: seq<seq<byte>>)
    requires forall p :: p in frames ==> DataFrame(p)
    ensures Rev(Queued(frames)) == []
  {
    if frames != [] {
      assert frames[0] in frames;
      QueueHasNoAnswers(frames[1..]);
      FilterAppend(Decoded(frames[0]), Queued(frames[1..]));
    }
  }

  /** x puts a frame on a channel; a frame of a transfer of its own only while nothing is queued. */
  lemma ComingAfterFrame(x: Session, y: Session, f: Frame, x': Session)
    requires Whole(x, y) && WellFormed(f)
    requires x'.out == x.out + Encode(f)
    requires x'.xfer.pendingFrames == x.xfer.pendingFrames
    requires QueueOk(x)
    requires f.kind in {SI, HD, DT, EF} ==> x.xfer.pendingFrames == []
    ensures Whole(x', y)
    ensures Fwd(Coming(x', y)) == Fwd(Coming(x, y)) + Fwd([f])
    ensures Rev(Coming(x', y)) == Rev(Coming(x, y)) + Rev([f])
  {
    ChannelAppend(x, y, Encode(f));
    DecodedFrame(f);
    QueueHasNoAnswers(x.xfer.pendingFrames);
    FilterInsert(Dispatched(Outs(y.framer, x.out)), f, Queued(x.xfer.pendingFrames));
  }

  /** Handing a queued frame to the channel changes nothing the peer will see. */
  lemma ComingAfterPump(x: Session, y: Session, x': Session)
    requires Whole(x, y) && x.xfer.pendingFrames != []
    requires DataFrame(x.xfer.pendingFrames[0])
    requires x'.out == x.out + x.xfer.pendingFrames[0]
    requires x'.xfer.pendingFrames == x.xfer.pendingFrames[1..]
    ensures Whole(x', y) && Coming(x', y) == Coming(x, y)
  {
    var first, rest := x.xfer.pendingFrames[0], x.xfer.pendingFrames[1..];
    ChannelAppend(x, y, first);
    var seen := Dispatched(Outs(y.framer, x.out));
    Assoc(seen, Decoded(first), Queued(rest));
  }

  lemma ComingAfterText(x: Session, y: Session, t: seq<byte>)
    requires Whole(x, y) && IsClean(t)
    ensures Whole(Send(x, t), y) && Coming(Send(x, t), y) == Coming(x, y)
  {
    ChannelAppend(x, y, t);
    DecodedText(t);
    Unit(Dispatched(Outs(y.framer, x.out)));
  }

  lemma EmitDispatched(o: Out, rest: seq<Out>)
    ensures Dispatched(Emit(o) + rest) == (if o.Dispatch? then [o.frame] else []) + Dispatched(rest)
  {
    if o.Quiet? {
      assert Emit(o) + rest == rest;
    } else {
      assert ([o] + rest)[1..] == rest;
    }
  }

  /** A byte leaves y's channel for x; the frame it completes, if any, leaves the list of frames to come. */
  lemma ComingAfterByte(y: Session, x: Session)
    requires y.out != []
    ensures var (q, o) := Step(x.framer, y.out[0]);
            var x1 := x.(framer := q); var y1 := y.(out := y.out[1..]);
            && Coming(y, x) == (if o.Dispatch? then [o.frame] else []) + Coming(y1, x1)
            && (Whole(y, x) <==> Whole(y1, x1))
  {
    var (q, o) := Step(x.framer, y.out[0]);
    var y1, x1 := y.(out := y.out[1..]), x.(framer := q);
    EmitDispatched(o, Outs(q, y1.out));
    Assoc(if o.Dispatch? then [o.frame] else [], Dispatched(Outs(q, y1.out)), Queued(y.xfer.pendingFrames));
  }

  // ---------------------------------------------------------------- one frame handled

  /** The frame x answers g with, except that RR starts the whole plan. */
  function Answer(x: Session, g: Frame): seq<Frame> {
    match g.kind
    case SI => if x.xfer.active then [CN_FRAME] else []
    case HD => if HasName(g.data) then [Frame(RF, [])] else []
    case ET => [Frame(AT, [])]
    case EF => if x.file.active then [AF_FRAME] else []
    case _ => []
  }

  /** What is to be kept when x handles g, stated on the lists of frames in flight: cf and cr are
      what x has sent to y, df and dr what y has sent to x behind g. */
  predicate Before(x: Session, y: Session, g: Frame, cf: seq<Frame>, cr: seq<Frame>, df: seq<Frame>, dr: seq<Frame>) {
    && Sound(x) && Sound(y)
    && Direction(x, y, cf, Rev([g]) + dr)
    && Direction(y, x, Fwd([g]) + df, cr)
  }

  predicate Afterwards(x: Session, y: Session, cf: seq<Frame>, cr: seq<Frame>, df: seq<Frame>, dr: seq<Frame>) {
    Sound(x) && Direction(x, y, cf, dr) && Direction(y, x, df, cr)
  }

  /** A direction only looks at some fields of the two sessions. */
  lemma DirectionFrame(x: Session, x': Session, y: Session, y': Session, f: seq<Frame>, r: seq<Frame>)
    requires Direction(x, y, f, r)
    requires x'.xfer == x.xfer && x'.offered == x.offered && x'.sent == x.sent && x'.ignored == x.ignored
    requires y'.xfer == y.xfer && y'.file == y.file && Delivered(y'.notices) == Delivered(y.notices)
    ensures Direction(x', y', f, r)
  {
  }

  lemma AskedHead(x: Session, y: Session, g: Frame, f: seq<Frame>, r: seq<Frame>)
    requires g.kind == SI && Direction(x, y, [g] + f, r)
    ensures f == [] && g == SI_FRAME && Asked(x, y, [g], r)
  {
    assert ([g] + f)[0] == g && ([g] + f)[1..] == f;
  }

  lemma HandleSIBusy(x: Session, y: Session, g: Frame, cf: seq<Frame>, cr: seq<Frame>, df: seq<Frame>, dr: seq<Frame>)
    requires g.kind == SI && Before(x, y, g, cf, cr, df, dr) && x.xfer.active
    ensures Afterwards(OnSI(x), y, cf, cr + [CN_FRAME], df, dr)
  {
    FilterOne(g);
    AskedHead(y, x, g, df, cr);
    Unit([CN_FRAME]);
    Unit(dr);
    assert Refused(y, OnSI(x), df, [CN_FRAME]);
    DirectionFrame(x, OnSI(x), y, y, cf, dr);
  }

  lemma HandleSIIdle(x: Session, y: Session, g: Frame, cf: seq<Frame>, cr: seq<Frame>, df: seq<Frame>, dr: seq<Frame>)
    requires g.kind == SI && Before(x, y, g, cf, cr, df, dr) && !x.xfer.active
    ensures Afterwards(OnSI(x), y, cf, cr, df, dr)
  {
    FilterOne(g);
    Told(x.notices, Requested);
    AskedHead(y, x, g, df, cr);
    Unit(dr);
    assert Offered(y, OnSI(x), df, cr);
    assert Calm(OnSI(x), y, cf, dr);
  }

  lemma HandleSI(x: Session, y: Session, g: Frame, cf: seq<Frame>, cr: seq<Frame>, df: seq<Frame>, dr: seq<Frame>)
    requires g.kind == SI && Before(x, y, g, cf, cr, df, dr)
    ensures Afterwards(OnSI(x), y, cf, cr + Rev(Answer(x, g)), df, dr)
  {
    if x.xfer.active {
      HandleSIBusy(x, y, g, cf, cr, df, dr);
      FilterOne(CN_FRAME);
    } else {
      HandleSIIdle(x, y, g, cf, cr, df, dr);
      Unit(cr);
    }
  }

  /** RR finds the sender waiting for it; the plan joins its queue. */
  lemma GrantedHead(x: Session, y: Session, g: Frame, f: seq<Frame>, r: seq<Frame>)
    requires g.kind == RR && Direction(x, y, f, [g] + r)
    ensures r == [] && Granted(x, y, f, [g])
  {
    assert ([g] + r)[0] == g && ([g] + r)[1..] == r;
  }

  lemma AckedHead(x: Session, y: Session, g: Frame, f: seq<Frame>, r: seq<Frame>)
    requires g.kind == AF && Direction(x, y, f, [g] + r)
    ensures r == [] && Acked(x, y, f, [g])
  {
    assert ([g] + r)[0] == g && ([g] + r)[1..] == r;
  }

  lemma RefusedHead(x: Session, y: Session, g: Frame, f: seq<Frame>, r: seq<Frame>)
    requires g.kind == CN && Direction(x, y, f, [g] + r)
    ensures r == [] && Refused(x, y, f, [g])
  {
    assert ([g] + r)[0] == g && ([g] + r)[1..] == r;
  }

  lemma StreamingHead(x: Session, y: Session, g: Frame, f: seq<Frame>, r: seq<Frame>)
    requires g.kind in {HD, DT, EF} && Direction(x, y, [g] + f, r)
    ensures Streaming(x, y, [g] + f, r)
    ensures g.kind == HD <==> !y.file.active
    ensures g.kind == HD ==>
      g.data == HeaderBody(x.offered.name, |x.offered.data|) && IsBody(f) && Payload(f) == x.offered.data
    ensures g.kind == DT ==> IsBody(f) && (y.file.fileBuf + g.data) + Payload(f) == x.offered.data
    ensures g.kind == EF ==> f == [] && y.file.fileBuf == x.offered.data
  {
    assert ([g] + f)[0] == g && ([g] + f)[1..] == f;
    assert y.file.fileBuf + [] == y.file.fileBuf;
    if g.kind == DT {
      assert y.file.fileBuf + (g.data + Payload(f)) == (y.file.fileBuf + g.data) + Payload(f);
    }
  }

  lemma ReportedFile(x: Session)
    requires Sound(x) && IsTx(x) && x.xfer.phase == AwaitingAF
    ensures var x' := OnAF(x);
            && x'.xfer == NO_XFER && x'.sent == x.sent + [x.offered]
            && Reported(x'.notices) == Receipts(x'.sent)
            && Delivered(x'.notices) == Delivered(x.notices) && x'.ignored == x.ignored
  {
    var sentNow := FileSent(x.xfer.name, x.xfer.total);
    Told(x.notices, sentNow);
    Told(x.notices + [sentNow], Ended(false));
    ReceiptsAppend(x.sent, x.offered);
  }

  lemma CountedAF(x: Session, y: Session, g: Frame, cf: seq<Frame>, cr: seq<Frame>, df: seq<Frame>)
    requires Sound(x) && Acked(x, y, cf, [g]) && g.kind == AF && Direction(y, x, df, cr) && x.xfer.phase == AwaitingAF
    ensures Afterwards(OnAF(x), y, cf, cr, df, [])
  {
    ReportedFile(x);
    assert Calm(OnAF(x), y, cf, []);
  }

  lemma IgnoredAF(x: Session, y: Session, g: Frame, cf: seq<Frame>, cr: seq<Frame>, df: seq<Frame>)
    requires Sound(x) && Acked(x, y, cf, [g]) && g.kind == AF && Direction(y, x, df, cr) && x.xfer.phase != AwaitingAF
    ensures Afterwards(OnAF(x), y, cf, cr, df, [])
  {
    assert OnAF(x) == x.(ignored := 1);
    assert Acked(OnAF(x), y, cf, []);
    DirectionFrame(y, y, x, OnAF(x), df, cr);
  }

  lemma HandleAF(x: Session, y: Session, g: Frame, cf: seq<Frame>, cr: seq<Frame>, df: seq<Frame>, dr: seq<Frame>)
    requires g.kind == AF && Before(x, y, g, cf, cr, df, dr)
    ensures Afterwards(OnAF(x), y, cf, cr + Rev(Answer(x, g)), df, dr)
  {
    FilterOne(g);
    AckedHead(x, y, g, cf, dr);
    Unit(cr);
    Unit(df);
    if x.xfer.phase == AwaitingAF {
      CountedAF(x, y, g, cf, cr, df);
    } else {
      IgnoredAF(x, y, g, cf, cr, df);
    }
  }

  /** x took a header: the file with this name is open and empty. */
  predicate HeaderTaken(x: Session, x': Session, name: seq<byte>) {
    && x'.file.active && x'.file.filename == name && x'.file.fileBuf == []
    && IsRx(x') && x'.xfer.phase == x.xfer.phase && x'.xfer.pendingFrames == x.xfer.pendingFrames
    && x'.connected == x.connected && x'.offered == x.offered && x'.sent == x.sent && x'.ignored == x.ignored
    && Delivered(x'.notices) == Delivered(x.notices) && Reported(x'.notices) == Reported(x.notices)
  }

  lemma HeaderIsTaken(x: Session, name: seq<byte>, size: nat)
    requires 0 !in name && size < 0x8000_0000_0000_0000
    ensures HeaderTaken(x, OnHD(x, HeaderBody(name, size)), name)
  {
    HeaderRoundTrip(name, size);
    Told(x.notices, Started(Rx, name, size, x.xfer.phase));
  }

  lemma HeaderKeeps(x: Session, x': Session, y: Session, cf: seq<Frame>, cr: seq<Frame>, df: seq<Frame>, dr: seq<Frame>)
    requires Sound(x) && HeaderTaken(x, x', y.offered.name)
    requires Direction(x, y, cf, dr) && Sending(y) && IsRx(x) && x.xfer.phase == Active && cr == [] && Even(y, x)
    requires IsBody(df) && Payload(df) == y.offered.data
    ensures Afterwards(x', y, cf, cr, df, dr)
  {
    Unit(y.offered.data);
    assert Calm(x', y, cf, dr);
    assert Streaming(y, x', df, cr);
  }

  /** A header and a block are answered with nothing that counts. */
  lemma AnswersNothing(x: Session, g: Frame, cr: seq<Frame>)
    requires g.kind in {HD, DT}
    ensures cr + Rev(Answer(x, g)) == cr
  {
    FilterOne(Frame(RF, []));
    Unit(cr);
  }

  lemma HandleHD(x: Session, y: Session, g: Frame, cf: seq<Frame>, cr: seq<Frame>, df: seq<Frame>, dr: seq<Frame>)
    requires g.kind == HD && Before(x, y, g, cf, cr, df, dr) && OfferOk(y)
    ensures Afterwards(OnHD(x, g.data), y, cf, cr + Rev(Answer(x, g)), df, dr)
  {
    FilterOne(g);
    Unit(dr);
    StreamingHead(y, x, g, df, cr);
    HeaderIsTaken(x, y.offered.name, |y.offered.data|);
    HeaderKeeps(x, OnHD(x, g.data), y, cf, cr, df, dr);
    AnswersNothing(x, g, cr);
  }

  lemma BlockKeeps(x: Session, x': Session, y: Session, data: seq<byte>, cf: seq<Frame>, cr: seq<Frame>, df: seq<Frame>,
                   dr: seq<Frame>)
    requires Sound(x) && x.file.active && x' == OnDT(x, data)
    requires Direction(x, y, cf, dr) && Sending(y) && IsRx(x) && x.xfer.phase == Active && cr == [] && Even(y, x)
    requires x.file.filename == y.offered.name
    requires IsBody(df) && x.file.fileBuf + data + Payload(df) == y.offered.data
    ensures Afterwards(x', y, cf, cr, df, dr)
  {
    assert Calm(x', y, cf, dr);
    assert Streaming(y, x', df, cr);
  }

  lemma HandleDT(x: Session, y: Session, g: Frame, cf: seq<Frame>, cr: seq<Frame>, df: seq<Frame>, dr: seq<Frame>)
    requires g.kind == DT && Before(x, y, g, cf, cr, df, dr)
    ensures Afterwards(OnDT(x, g.data), y, cf, cr + Rev(Answer(x, g)), df, dr)
  {
    FilterOne(g);
    Unit(dr);
    StreamingHead(y, x, g, df, cr);
    BlockKeeps(x, OnDT(x, g.data), y, g.data, cf, cr, df, dr);
    AnswersNothing(x, g, cr);
  }

  /** The file that was being received is handed over. */
  lemma FileTaken(x: Session)
    requires Sound(x) && x.file.active
    ensures var x' := OnEF(x);
            && Sound(x') && !IsTx(x') && !IsRx(x') && x'.sent == x.sent && x'.ignored == x.ignored
            && Delivered(x'.notices) == Delivered(x.notices) + [File(x.file.filename, x.file.fileBuf)]
            && Reported(x'.notices) == Reported(x.notices)
  {
    var received := FileReceived(x.file.filename, x.file.fileBuf);
    Told(x.notices, received);
    Told(x.notices + [received], Ended(false));
    Unit(Delivered(x.notices) + [File(x.file.filename, x.file.fileBuf)]);
    Unit(Reported(x.notices));
  }

  lemma FileGone(x: Session, x': Session, y: Session, cf: seq<Frame>, df: seq<Frame>, dr: seq<Frame>)
    requires Sound(x') && Direction(x, y, cf, dr) && Sending(y) && IsRx(x) && Even(y, x) && df == []
    requires !IsTx(x') && !IsRx(x') && x'.sent == x.sent && x'.ignored == x.ignored
    requires Delivered(x'.notices) == Delivered(x.notices) + [y.offered]
    ensures Afterwards(x', y, cf, [AF_FRAME], df, dr)
  {
    assert Calm(x', y, cf, dr);
    assert Acked(y, x', df, [AF_FRAME]);
  }

  lemma HandleEF(x: Session, y: Session, g: Frame, cf: seq<Frame>, cr: seq<Frame>, df: seq<Frame>, dr: seq<Frame>)
    requires g.kind == EF && Before(x, y, g, cf, cr, df, dr)
    ensures Afterwards(OnEF(x), y, cf, cr + Rev(Answer(x, g)), df, dr)
  {
    FilterOne(g);
    FilterOne(AF_FRAME);
    Unit(dr);
    Unit([AF_FRAME]);
    StreamingHead(y, x, g, df, cr);
    FileTaken(x);
    assert Answer(x, g) == [AF_FRAME];
    FileGone(x, OnEF(x), y, cf, df, dr);
  }

  lemma HandleCN(x: Session, y: Session, g: Frame, cf: seq<Frame>, cr: seq<Frame>, df: seq<Frame>, dr: seq<Frame>)
    requires g.kind == CN && Before(x, y, g, cf, cr, df, dr)
    ensures Afterwards(OnCN(x), y, cf, cr + Rev(Answer(x, g)), df, dr)
    ensures x.xfer.pendingFrames == []
  {
    FilterOne(g);
    RefusedHead(x, y, g, cf, dr);
    var x' := OnCN(x);
    Told(x.notices, Ended(true));
    assert Calm(x', y, cf, dr);
    assert cr + [] == cr && [] + df == df;
  }

  lemma HandleOther(x: Session, y: Session, g: Frame, cf: seq<Frame>, cr: seq<Frame>, df: seq<Frame>, dr: seq<Frame>,
                    x': Session)
    requires g.kind in {RF, AT, CA, ET} && Before(x, y, g, cf, cr, df, dr)
    requires x' == x.(out := x'.out)
    ensures Afterwards(x', y, cf, cr + Rev(Answer(x, g)), df, dr)
  {
    FilterOne(g);
    FilterOne(Frame(AT, []));
    Unit(cr);
    Unit(df);
    Unit(dr);
    DirectionFrame(x, x', y, y, cf, dr);
    DirectionFrame(y, y, x, x', df, cr);
  }

  /** fs are the frames of the file x offers, whatever size they were cut to. */
  predicate FramesOfOffer(x: Session, fs: seq<Frame>) {
    && fs != [] && Fwd(fs) == fs && Rev(fs) == []
    && fs[0] == Frame(HD, HeaderBody(x.offered.name, |x.offered.data|))
    && IsBody(fs[1..]) && Payload(fs[1..]) == x.offered.data
  }

  lemma HandleRR(x: Session, y: Session, g: Frame, cf: seq<Frame>, cr: seq<Frame>, df: seq<Frame>, dr: seq<Frame>,
                 fs: seq<Frame>, x': Session)
    requires g.kind == RR && Before(x, y, g, cf, cr, df, dr) && FramesOfOffer(x, fs)
    requires IsTx(x') && x'.xfer.phase == Active && Sound(x') && Delivered(x'.notices) == Delivered(x.notices)
    requires x'.offered == x.offered && x'.sent == x.sent && x'.ignored == x.ignored
    ensures Afterwards(x', y, cf + fs, cr, df, dr)
  {
    FilterOne(g);
    GrantedHead(x, y, g, cf, dr);
    Unit(df);
    Unit(fs);
    assert Streaming(x', y, fs, dr);
    assert Calm(y, x', df, cr);
  }

  lemma BeginPlanSound(x: Session, plan: seq<seq<byte>>)
    requires Sound(x) && Asking(x) && |plan| > 0
    ensures var x' := BeginPlan(x, plan);
            && Sound(x') && IsTx(x') && x'.xfer.phase == Active && Delivered(x'.notices) == Delivered(x.notices)
            && x'.offered == x.offered && x'.sent == x.sent && x'.ignored == x.ignored && x'.framer == x.framer
            && x'.out == x.out + plan[0] && x'.xfer.pendingFrames == plan[1..]
  {
    Told(x.notices, Started(Tx, x.xfer.name, x.xfer.total, Active));
  }

  // ---------------------------------------------------------------- every step keeps the invariant

  lemma AnswerGoesOut(x: Session, g: Frame, paclen: int)
    requires g.kind != RR
    ensures var x' := Handle(x, g, paclen); var e := Answer(x, g);
            && (if e == [] then x'.out == x.out else WellFormed(e[0]) && |e| == 1 && x'.out == x.out + Encode(e[0]))
            && x'.framer == x.framer
            && (x'.xfer.pendingFrames == x.xfer.pendingFrames || x'.xfer.pendingFrames == [])
            && (x'.xfer.pendingFrames != x.xfer.pendingFrames ==> g.kind in {AF, EF, CN} && x'.xfer == NO_XFER)
            && (IsTx(x') ==> IsTx(x)) && x'.offered == x.offered
  {
  }

  /** x sends nothing but e, and its queue stays as it is. */
  lemma ComingAfterAnswer(x: Session, y: Session, e: seq<Frame>, x': Session)
    requires Whole(x, y) && |e| <= 1 && (e != [] ==> WellFormed(e[0]) && e[0].kind !in {SI, HD, DT, EF})
    requires x'.out == if e == [] then x.out else x.out + Encode(e[0])
    requires x'.xfer.pendingFrames == x.xfer.pendingFrames
    requires QueueOk(x)
    ensures Whole(x', y)
    ensures Fwd(Coming(x', y)) == Fwd(Coming(x, y))
    ensures Rev(Coming(x', y)) == Rev(Coming(x, y)) + Rev(e)
  {
    if e != [] {
      assert e == [e[0]];
      ComingAfterFrame(x, y, e[0], x');
      FilterOne(e[0]);
    }
  }

  lemma ComingAfterPlan(x: Session, y: Session, plan: seq<seq<byte>>, x': Session)
    requires x.xfer.pendingFrames == [] && Whole(x, y) && |plan| > 0 && DataFrame(plan[0])
    requires x'.out == x.out + plan[0] && x'.xfer.pendingFrames == plan[1..]
    ensures Whole(x', y) && Coming(x', y) == Coming(x, y) + Queued(plan)
  {
    var seen := Dispatched(Outs(y.framer, x.out));
    ChannelAppend(x, y, plan[0]);
    Unit(seen);
    Assoc(seen, Decoded(plan[0]), Queued(plan[1..]));
  }

  /** Only RR fills the queue; what ends a transfer finds it empty. */
  lemma QueueStays(x: Session, y: Session, g: Frame, cf: seq<Frame>, cr: seq<Frame>, df: seq<Frame>, dr: seq<Frame>,
                   paclen: int)
    requires g.kind != RR && Before(x, y, g, cf, cr, df, dr)
    ensures Handle(x, g, paclen).xfer.pendingFrames == x.xfer.pendingFrames
  {
    FilterOne(g);
    if g.kind == CN {
      RefusedHead(x, y, g, cf, dr);
    }
  }

  /** x handles a frame other than RR. */
  lemma HandleAnswered(x: Session, y: Session, g: Frame, cf: seq<Frame>, cr: seq<Frame>, df: seq<Frame>, dr: seq<Frame>,
                       paclen: int)
    requires g.kind != RR && Before(x, y, g, cf, cr, df, dr) && OfferOk(y)
    ensures Afterwards(Handle(x, g, paclen), y, cf, cr + Rev(Answer(x, g)), df, dr)
  {
    match g.kind {
      case SI => HandleSI(x, y, g, cf, cr, df, dr);
      case AF => HandleAF(x, y, g, cf, cr, df, dr);
      case HD => HandleHD(x, y, g, cf, cr, df, dr);
      case DT => HandleDT(x, y, g, cf, cr, df, dr);
      case EF => HandleEF(x, y, g, cf, cr, df, dr);
      case CN => HandleCN(x, y, g, cf, cr, df, dr);
      case _ => HandleOther(x, y, g, cf, cr, df, dr, Handle(x, g, paclen));
    }
  }

  lemma PairIntro(x: Session, y: Session, f: seq<Frame>, r: seq<Frame>)
    requires Whole(x, y) && Direction(x, y, f, r)
    requires Fwd(Coming(x, y)) == f && Rev(Coming(y, x)) == r
    ensures Pair(x, y)
  {
  }

  /** x became x' and put e on its channel; what the lists of frames say carries over. */
  lemma KeepsAnswered(x: Session, y: Session, x': Session, e: seq<Frame>)
    requires Whole(x, y) && Whole(y, x) && QueueOk(x)
    requires |e| <= 1 && (e != [] ==> WellFormed(e[0]) && e[0].kind !in {SI, HD, DT, EF})
    requires x'.out == if e == [] then x.out else x.out + Encode(e[0])
    requires x'.framer == x.framer && x'.xfer.pendingFrames == x.xfer.pendingFrames
    requires Direction(x', y, Fwd(Coming(x, y)), Rev(Coming(y, x)))
    requires Direction(y, x', Fwd(Coming(y, x)), Rev(Coming(x, y)) + Rev(e))
    ensures Pair(x', y) && Pair(y, x')
  {
    ComingAfterAnswer(x, y, e, x');
    assert Coming(y, x') == Coming(y, x);
    PairIntro(x', y, Fwd(Coming(x, y)), Rev(Coming(y, x)));
    PairIntro(y, x', Fwd(Coming(y, x)), Rev(Coming(x, y)) + Rev(e));
  }

  lemma KeepsRR(x: Session, y: Session, x': Session, plan: seq<seq<byte>>)
    requires Whole(x, y) && Whole(y, x)
    requires x.xfer.pendingFrames == [] && |plan| > 0 && DataFrame(plan[0]) && Rev(Queued(plan)) == []
    requires x'.out == x.out + plan[0] && x'.xfer.pendingFrames == plan[1..] && x'.framer == x.framer
    requires Direction(x', y, Fwd(Coming(x, y)) + Fwd(Queued(plan)), Rev(Coming(y, x)))
    requires Direction(y, x', Fwd(Coming(y, x)), Rev(Coming(x, y)))
    ensures Pair(x', y) && Pair(y, x')
  {
    ComingAfterPlan(x, y, plan, x');
    FilterAppend(Coming(x, y), Queued(plan));
    Unit(Rev(Coming(x, y)));
    assert Coming(y, x') == Coming(y, x);
    PairIntro(x', y, Fwd(Coming(x, y)) + Fwd(Queued(plan)), Rev(Coming(y, x)));
    PairIntro(y, x', Fwd(Coming(y, x)), Rev(Coming(x, y)));
  }

  lemma HandleRRKeeps(x: Session, y: Session, g: Frame, paclen: int)
    requires g.kind == RR && QueueOk(x) && OfferOk(x) && Whole(x, y) && Whole(y, x)
    requires Before(x, y, g, Fwd(Coming(x, y)), Rev(Coming(x, y)), Fwd(Coming(y, x)), Rev(Coming(y, x)))
    ensures var x' := OnRR(x, paclen);
            Sound(x') && QueueOk(x') && OfferOk(x') && Pair(x', y) && Pair(y, x')
  {
    var cf, cr := Fwd(Coming(x, y)), Rev(Coming(x, y));
    var df, dr := Fwd(Coming(y, x)), Rev(Coming(y, x));
    FilterOne(g);
    GrantedHead(x, y, g, cf, dr);
    QueuedPlan(x.offered, paclen);
    var plan := Plan(x.xfer.name, x.xfer.total, x.xfer.pendingData, paclen);
    assert plan[0] in plan;
    BeginPlanSound(x, plan);
    HandleRR(x, y, g, cf, cr, df, dr, Queued(plan), OnRR(x, paclen));
    KeepsRR(x, y, OnRR(x, paclen), plan);
  }

  /** KeepsAnswered, from what handling is known to do. */
  lemma AnsweredKeeps(x: Session, y: Session, x': Session, e: seq<Frame>)
    requires QueueOk(x) && OfferOk(x) && Whole(x, y) && Whole(y, x)
    requires |e| <= 1 && (e != [] ==> WellFormed(e[0]) && e[0].kind !in {SI, HD, DT, EF})
    requires x'.out == if e == [] then x.out else x.out + Encode(e[0])
    requires x'.framer == x.framer && x'.xfer.pendingFrames == x.xfer.pendingFrames
    requires (IsTx(x') ==> IsTx(x)) && x'.offered == x.offered
    requires Afterwards(x', y, Fwd(Coming(x, y)), Rev(Coming(x, y)) + Rev(e), Fwd(Coming(y, x)), Rev(Coming(y, x)))
    ensures Sound(x') && QueueOk(x') && OfferOk(x') && Pair(x', y) && Pair(y, x')
  {
    KeepsAnswered(x, y, x', e);
  }

  /** What handling is known to do, in the words of AnsweredKeeps. */
  lemma AnswerAdds(x: Session, y: Session, g: Frame, paclen: int)
    requires g.kind != RR && Sound(x) && Sound(y)
    requires Before(x, y, g, Fwd(Coming(x, y)), Rev(Coming(x, y)), Fwd(Coming(y, x)), Rev(Coming(y, x)))
    ensures var x', e := Handle(x, g, paclen), Answer(x, g);
            && |e| <= 1 && (e != [] ==> WellFormed(e[0]) && e[0].kind !in {SI, HD, DT, EF})
            && x'.out == (if e == [] then x.out else x.out + Encode(e[0]))
            && x'.framer == x.framer && x'.xfer.pendingFrames == x.xfer.pendingFrames
            && (IsTx(x') ==> IsTx(x)) && x'.offered == x.offered
  {
    QueueStays(x, y, g, Fwd(Coming(x, y)), Rev(Coming(x, y)), Fwd(Coming(y, x)), Rev(Coming(y, x)), paclen);
    AnswerGoesOut(x, g, paclen);
  }

  lemma HandleAnsweredKeeps(x: Session, y: Session, g: Frame, paclen: int)
    requires g.kind != RR && QueueOk(x) && OfferOk(x) && OfferOk(y) && Whole(x, y) && Whole(y, x)
    requires Before(x, y, g, Fwd(Coming(x, y)), Rev(Coming(x, y)), Fwd(Coming(y, x)), Rev(Coming(y, x)))
    ensures var x' := Handle(x, g, paclen);
            Sound(x') && QueueOk(x') && OfferOk(x') && Pair(x', y) && Pair(y, x')
  {
    AnswerAdds(x, y, g, paclen);
    HandleAnswered(x, y, g, Fwd(Coming(x, y)), Rev(Coming(x, y)), Fwd(Coming(y, x)), Rev(Coming(y, x)), paclen);
    AnsweredKeeps(x, y, Handle(x, g, paclen), Answer(x, g));
  }

  /** Handling the frame g, which has just left y's channel, keeps the invariant. */
  lemma HandleKeeps(x: Session, y: Session, g: Frame, paclen: int)
    requires QueueOk(x) && OfferOk(x) && OfferOk(y) && Whole(x, y) && Whole(y, x)
    requires Before(x, y, g, Fwd(Coming(x, y)), Rev(Coming(x, y)), Fwd(Coming(y, x)), Rev(Coming(y, x)))
    ensures var x' := Handle(x, g, paclen);
            Sound(x') && QueueOk(x') && OfferOk(x') && Pair(x', y) && Pair(y, x')
  {
    if g.kind == RR {
      HandleRRKeeps(x, y, g, paclen);
    } else {
      HandleAnsweredKeeps(x, y, g, paclen);
    }
  }

  lemma InvIntro(x: Session, y: Session)
    requires Sound(x) && Sound(y) && QueueOk(x) && QueueOk(y) && OfferOk(x) && OfferOk(y)
    requires Pair(x, y) && Pair(y, x)
    ensures Inv(World(x, y))
  {
  }

  /** The byte has left the channel; what it completed is still to be handled. */
  lemma ByteTaken(x: Session, y: Session, x1: Session, y1: Session, taken: seq<Frame>)
    requires Inv(World(x, y)) && y.out != []
    requires x1 == x.(framer := Step(x.framer, y.out[0]).0) && y1 == y.(out := y.out[1..])
    requires taken == if Step(x.framer, y.out[0]).1.Dispatch? then [Step(x.framer, y.out[0]).1.frame] else []
    ensures Whole(x1, y1) && Whole(y1, x1)
    ensures Direction(x1, y1, Fwd(Coming(x1, y1)), Rev(taken + Coming(y1, x1)))
    ensures Direction(y1, x1, Fwd(taken + Coming(y1, x1)), Rev(Coming(x1, y1)))
  {
    ComingAfterByte(y, x);
    assert Coming(x1, y1) == Coming(x, y);
    DirectionFrame(x, x1, y, y1, Fwd(Coming(x, y)), Rev(Coming(y, x)));
    DirectionFrame(y, y1, x, x1, Fwd(Coming(y, x)), Rev(Coming(x, y)));
  }

  lemma FrameTaken(x: Session, y: Session, x1: Session, y1: Session, g: Frame)
    requires Inv(World(x, y)) && y.out != []
    requires x1 == x.(framer := Step(x.framer, y.out[0]).0) && y1 == y.(out := y.out[1..])
    requires Step(x.framer, y.out[0]).1 == Dispatch(g)
    ensures QueueOk(x1) && OfferOk(x1) && OfferOk(y1) && Whole(x1, y1) && Whole(y1, x1)
    ensures Before(x1, y1, g, Fwd(Coming(x1, y1)), Rev(Coming(x1, y1)), Fwd(Coming(y1, x1)), Rev(Coming(y1, x1)))
  {
    ByteTaken(x, y, x1, y1, [g]);
    FilterAppend([g], Coming(y1, x1));
  }

  lemma TextKeeps(x: Session, y: Session, x': Session)
    requires Sound(x) && QueueOk(x) && OfferOk(x) && Pair(x, y) && Pair(y, x)
    requires x' == x.(text := x'.text)
    ensures Sound(x') && QueueOk(x') && OfferOk(x') && Pair(x', y) && Pair(y, x')
  {
    DirectionFrame(x, x', y, y, Fwd(Coming(x, y)), Rev(Coming(y, x)));
    DirectionFrame(y, y, x, x', Fwd(Coming(y, x)), Rev(Coming(x, y)));
    assert Coming(x', y) == Coming(x, y) && Coming(y, x') == Coming(y, x);
  }

  lemma QuietByteKeeps(x: Session, y: Session, x2: Session, y1: Session)
    requires Inv(World(x, y)) && y.out != [] && !Step(x.framer, y.out[0]).1.Dispatch?
    requires x2 == x.(framer := Step(x.framer, y.out[0]).0, text := x2.text) && y1 == y.(out := y.out[1..])
    ensures Inv(World(x2, y1))
  {
    var x1 := x.(framer := Step(x.framer, y.out[0]).0);
    ByteTaken(x, y, x1, y1, []);
    Unit(Coming(y1, x1));
    TextKeeps(x1, y1, x2);
    InvIntro(x2, y1);
  }

  /** One byte leaves y's channel and reaches x. */
  lemma ByteKeeps(x: Session, y: Session, paclen: int)
    requires Inv(World(x, y)) && y.out != []
    ensures Inv(World(Receive1(x, y.out[0], paclen), y.(out := y.out[1..])))
  {
    var (q, o) := Step(x.framer, y.out[0]);
    var x1, y1 := x.(framer := q), y.(out := y.out[1..]);
    var x2 := Receive1(x, y.out[0], paclen);
    if o.Dispatch? {
      FrameTaken(x, y, x1, y1, o.frame);
      HandleKeeps(x1, y1, o.frame, paclen);
      HandleIgnoresFramer(x, o.frame, paclen, q);
      InvIntro(x2, y1);
    } else {
      QuietByteKeeps(x, y, x2, y1);
    }
  }

  lemma DeliverOne(x: Session, y: Session, k: nat, paclen: int)
    requires 0 < k <= |y.out|
    ensures var x1, y1 := Receive1(x, y.out[0], paclen), y.(out := y.out[1..]);
            && Receive(x, y.out[..k], paclen) == Receive(x1, y1.out[..k - 1], paclen)
            && y1.(out := y1.out[k - 1..]) == y.(out := y.out[k..])
  {
    var chunk := y.out[..k];
    assert chunk[0] == y.out[0] && chunk[1..] == y.out[1..][..k - 1] && y.out[1..][k - 1..] == y.out[k..];
  }

  lemma {:induction false} DeliverKeeps(x: Session, y: Session, k: nat, paclen: int)
    requires Inv(World(x, y)) && k <= |y.out|
    ensures Inv(World(Receive(x, y.out[..k], paclen), y.(out := y.out[k..])))
    decreases k
  {
    if k == 0 {
      assert y.out[0..] == y.out;
    } else {
      ByteKeeps(x, y, paclen);
      DeliverOne(x, y, k, paclen);
      DeliverKeeps(Receive1(x, y.out[0], paclen), y.(out := y.out[1..]), k - 1, paclen);
    }
  }

  /** A session that was idle and now sends looks the same to a transfer towards it. */
  lemma OfferOther(x: Session, x': Session, y: Session, f: seq<Frame>, r: seq<Frame>)
    requires Direction(y, x, f, r) && !IsRx(x) && !IsRx(x') && Delivered(x'.notices) == Delivered(x.notices)
    ensures Direction(y, x', f, r)
  {
  }

  lemma OfferKeeps(x: Session, y: Session, file: File)
    requires Inv(World(x, y)) && Sendable(file)
    ensures Inv(World(SendFile(x, file), y))
  {
    var x' := SendFile(x, file);
    if x' != x {
      var cf, cr := Fwd(Coming(x, y)), Rev(Coming(x, y));
      var df, dr := Fwd(Coming(y, x)), Rev(Coming(y, x));
      assert BuildSI() == Encode(SI_FRAME);
      ComingAfterFrame(x, y, SI_FRAME, x');
      FilterOne(SI_FRAME);
      Told(x.notices, Started(Tx, file.name, |file.data|, AwaitingRR));
      assert Coming(y, x') == Coming(y, x);
      assert Calm(x, y, cf, dr);
      assert Asked(x', y, [SI_FRAME], dr);
      assert cf + [SI_FRAME] == [SI_FRAME] && cr + [] == cr;
      PairIntro(x', y, [SI_FRAME], dr);
      OfferOther(x, x', y, df, cr);
      PairIntro(y, x', df, cr);
      InvIntro(x', y);
    }
  }

  /** A held offer is granted. */
  lemma Accepted(x: Session, y: Session, cf: seq<Frame>, cr: seq<Frame>, df: seq<Frame>, dr: seq<Frame>)
    requires Sound(x) && Direction(x, y, cf, dr) && Direction(y, x, df, cr)
    requires IsRx(x) && x.xfer.phase == AwaitingAccept && Accept(x) != x
    ensures Direction(Accept(x), y, cf, dr) && Direction(y, Accept(x), df, [RR_FRAME]) && cr == []
  {
    assert Calm(Accept(x), y, cf, dr);
    assert Granted(y, Accept(x), df, [RR_FRAME]);
  }

  lemma Turned(x: Session, y: Session, cf: seq<Frame>, cr: seq<Frame>, df: seq<Frame>, dr: seq<Frame>)
    requires Sound(x) && Direction(x, y, cf, dr) && Direction(y, x, df, cr)
    requires IsRx(x) && x.xfer.phase == AwaitingAccept && Reject(x) != x
    ensures Direction(Reject(x), y, cf, dr) && Direction(y, Reject(x), df, [CN_FRAME]) && cr == []
  {
    Told(x.notices, Ended(true));
    assert Calm(Reject(x), y, cf, dr);
    assert Refused(y, Reject(x), df, [CN_FRAME]);
  }

  lemma AcceptKeeps(x: Session, y: Session)
    requires Inv(World(x, y))
    ensures Inv(World(Accept(x), y))
  {
    var x' := Accept(x);
    if x' != x {
      var cf, cr := Fwd(Coming(x, y)), Rev(Coming(x, y));
      var df, dr := Fwd(Coming(y, x)), Rev(Coming(y, x));
      assert BuildRR() == Encode(RR_FRAME);
      ComingAfterFrame(x, y, RR_FRAME, x');
      FilterOne(RR_FRAME);
      Unit(cf);
      Unit([RR_FRAME]);
      assert Coming(y, x') == Coming(y, x);
      Accepted(x, y, cf, cr, df, dr);
      PairIntro(x', y, cf, dr);
      PairIntro(y, x', df, [RR_FRAME]);
      InvIntro(x', y);
    }
  }

  lemma RejectKeeps(x: Session, y: Session)
    requires Inv(World(x, y))
    ensures Inv(World(Reject(x), y))
  {
    var x' := Reject(x);
    if x' != x {
      var cf, cr := Fwd(Coming(x, y)), Rev(Coming(x, y));
      var df, dr := Fwd(Coming(y, x)), Rev(Coming(y, x));
      assert BuildCN([]) == Encode(CN_FRAME);
      ComingAfterFrame(x, y, CN_FRAME, x');
      FilterOne(CN_FRAME);
      Unit(cf);
      Unit([CN_FRAME]);
      Told(x.notices, Ended(true));
      assert Coming(y, x') == Coming(y, x);
      Turned(x, y, cf, cr, df, dr);
      PairIntro(x', y, cf, dr);
      PairIntro(y, x', df, [CN_FRAME]);
      InvIntro(x', y);
    }
  }

  lemma BurstDirection(x: Session, x': Session, y: Session, f: seq<Frame>, r: seq<Frame>)
    requires Direction(x, y, f, r) && Sending(x) && Sending(x')
    requires x'.offered == x.offered && x'.sent == x.sent && x'.ignored == x.ignored
    ensures Direction(x', y, f, r)
  {
  }

  lemma BurstOther(x: Session, x': Session, y: Session, f: seq<Frame>, r: seq<Frame>)
    requires Direction(y, x, f, r) && Sending(x) && Sending(x') && x'.notices == x.notices
    ensures Direction(y, x', f, r)
  {
  }

  lemma BurstKeeps(x: Session, y: Session)
    requires Inv(World(x, y))
    ensures Inv(World(TxReady(x), y))
  {
    var x' := TxReady(x);
    if x' != x {
      if x'.xfer.phase == Active {
        assert x.xfer.pendingFrames[0] in x.xfer.pendingFrames;
        ComingAfterPump(x, y, x');
      } else {
        assert x'.out == x.out && x'.xfer.pendingFrames == x.xfer.pendingFrames;
      }
      assert Coming(x', y) == Coming(x, y) && Coming(y, x') == Coming(y, x);
      BurstDirection(x, x', y, Fwd(Coming(x, y)), Rev(Coming(y, x)));
      BurstOther(x, x', y, Fwd(Coming(y, x)), Rev(Coming(x, y)));
      InvIntro(x', y);
    }
  }

  lemma TypeKeeps(x: Session, y: Session, text: seq<byte>)
    requires Inv(World(x, y)) && IsClean(text)
    ensures Inv(World(Send(x, text), y))
  {
    var x' := Send(x, text);
    ComingAfterText(x, y, text);
    assert Coming(y, x') == Coming(y, x);
    DirectionFrame(x, x', y, y, Fwd(Coming(x, y)), Rev(Coming(y, x)));
    DirectionFrame(y, y, x, x', Fwd(Coming(y, x)), Rev(Coming(x, y)));
    InvIntro(x', y);
  }

  lemma ActKeeps(w: World, act: Action)
    requires Inv(w) && Allowed(act)
    ensures Inv(Act(w, act))
  {
    match act {
      case Offer(file) => OfferKeeps(w.a, w.b, file);
      case AcceptOffer => AcceptKeeps(w.a, w.b);
      case RejectOffer => RejectKeeps(w.a, w.b);
      case Burst => BurstKeeps(w.a, w.b);
      case Type(text) => TypeKeeps(w.a, w.b, text);
      case Deliver(n, paclen) => DeliverKeeps(w.a, w.b, if n < |w.b.out| then n else |w.b.out|, paclen);
    }
  }

  lemma {:induction false} RunKeeps(events: seq<Event>)
    requires forall e :: e in events ==> Allowed(e.action)
    ensures Inv(Run(events))
  {
    if events != [] {
      var before := events[..|events| - 1];
      var e := events[|events| - 1];
      RunKeeps(before);
      assert e in events;
      if e.byA {
        ActKeeps(Run(before), e.action);
      } else {
        ActKeeps(Swap(Run(before)), e.action);
      }
    } else {
      assert Inv(World(NEW_SESSION, NEW_SESSION));
    }
  }

  /** The files a station reported as sent, in every run: the peer's user has been given exactly
      these files, names and bytes, in this order and once each, and at most one more, which is the
      one being sent now. */
  lemma ReportedFilesWereDelivered(events: seq<Event>)
    requires forall e :: e in events ==> Allowed(e.action)
    ensures var w := Run(events);
            && Reported(w.a.notices) == Receipts(w.a.sent) && Reported(w.b.notices) == Receipts(w.b.sent)
            && (Delivered(w.b.notices) == w.a.sent || Delivered(w.b.notices) == w.a.sent + [w.a.offered])
            && (Delivered(w.a.notices) == w.b.sent || Delivered(w.a.notices) == w.b.sent + [w.b.offered])
  {
    RunKeeps(events);
  }
}
