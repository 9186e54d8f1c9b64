/** The terminal text of a session: the bytes the framer takes for no frame, nothing else, in order.
    Over any run of the two stations a station shows what its peer typed. */
module YappText {
  import opened Bytes
  import opened YappFrames
  import opened YappSession
  import opened YappLink
  import opened YappSafety
  import opened YappCompletes

  /** The text among what a framer gives out. */
  function TextOf(os: seq<Out>): seq<byte> {
    if os == [] then [] else (if os[0].Text? then [os[0].b] else []) + TextOf(os[1..])
  }

  lemma {:induction false} TextAppend(xs: seq<Out>, ys: seq<Out>)
    ensures TextOf(xs + ys) == TextOf(xs) + TextOf(ys)
  {
    if xs == [] {
      Unit(ys);
    } else {
      assert (xs + ys)[1..] == xs[1..] + ys;
      TextAppend(xs[1..], ys);
      Assoc(if xs[0].Text? then [xs[0].b] else [], TextOf(xs[1..]), TextOf(ys));
    }
  }

  function Shown(o: Out): seq<byte> { if o.Text? then [o.b] else [] }

  lemma TextEmitted(o: Out, os: seq<Out>)
    ensures TextOf(Emit(o) + os) == Shown(o) + TextOf(os)
  {
    if o.Quiet? {
      Unit(os);
    } else {
      assert ([o] + os)[1..] == os;
    }
  }

  // ---------------------------------------------------------------- one session

  lemma HandleShowsNothing(s: Session, f: Frame, paclen: int)
    ensures Handle(s, f, paclen).text == s.text && Handle(s, f, paclen).framer == s.framer
  {
  }

  lemma ByteShown(s: Session, b: byte, paclen: int)
    ensures Receive1(s, b, paclen).text == s.text + Shown(Step(s.framer, b).1)
    ensures Receive1(s, b, paclen).framer == Step(s.framer, b).0
  {
    var (q, o) := Step(s.framer, b);
    Unit(s.text);
    if o.Dispatch? {
      HandleShowsNothing(s, o.frame, paclen);
    }
  }

  /** Whatever state a session is in and whatever comes in, its text grows by the bytes its framer gives
      out as text, in order. */
  lemma {:induction false} TextShown(s: Session, chunk: seq<byte>, paclen: int)
    ensures Receive(s, chunk, paclen).text == s.text + TextOf(Outs(s.framer, chunk))
    ensures Receive(s, chunk, paclen).framer == After(s.framer, chunk)
    decreases |chunk|
  {
    if chunk == [] {
      Unit(s.text);
    } else {
      var (q, o) := Step(s.framer, chunk[0]);
      ByteShown(s, chunk[0], paclen);
      TextShown(Receive1(s, chunk[0], paclen), chunk[1..], paclen);
      TextEmitted(o, Outs(q, chunk[1..]));
      Assoc(s.text, Shown(o), TextOf(Outs(q, chunk[1..])));
    }
  }

  /** The chunks the link delivers, one after the other. */
  function ReceiveAll(s: Session, chunks: seq<seq<byte>>, paclen: int): Session
    decreases |chunks|
  {
    if chunks == [] then s else ReceiveAll(Receive(s, chunks[0], paclen), chunks[1..], paclen)
  }

  lemma {:induction false} ReceiveAllFlat(s: Session, chunks: seq<seq<byte>>, paclen: int)
    ensures ReceiveAll(s, chunks, paclen) == Receive(s, Flatten(chunks), paclen)
    decreases |chunks|
  {
    if chunks != [] {
      ReceiveAppend(s, chunks[0], Flatten(chunks[1..]), paclen);
      ReceiveAllFlat(Receive(s, chunks[0], paclen), chunks[1..], paclen);
    }
  }

  /** The texts among the items, put together. */
  function Texts(items: seq<Item>): seq<byte> {
    if items == [] then [] else (if items[0].TextItem? then items[0].text else []) + Texts(items[1..])
  }

  lemma {:induction false} TextOfTextOuts(t: seq<byte>)
    ensures TextOf(TextOuts(t)) == t
  {
    if t != [] {
      assert TextOuts(t)[1..] == TextOuts(t[1..]);
      TextOfTextOuts(t[1..]);
    }
  }

  lemma TextOfFrame(f: Frame)
    ensures TextOf([Dispatch(f)]) == []
  {
    assert [Dispatch(f)][1..] == [];
  }

  lemma {:induction false} TextOfMeaning(items: seq<Item>)
    ensures TextOf(Meaning(items)) == Texts(items)
  {
    if items != [] {
      TextOfMeaning(items[1..]);
      TextAppend(ItemOuts(items[0]), Meaning(items[1..]));
      if items[0].TextItem? {
        TextOfTextOuts(items[0].text);
      } else {
        TextOfFrame(items[0].frame);
      }
    }
  }

  /** Frames and text in any mixture, cut into chunks anywhere: a session between two frames shows
      exactly the texts, in order, and is between two frames again. */
  lemma TextsShown(s: Session, items: seq<Item>, chunks: seq<seq<byte>>, paclen: int)
    requires s.framer.phase == Idle && (forall x :: x in items ==> CleanItem(x)) && Flatten(chunks) == Wire(items)
    ensures var r := ReceiveAll(s, chunks, paclen); r.text == s.text + Texts(items) && r.framer.phase == Idle
  {
    ReceiveAllFlat(s, chunks, paclen);
    TextShown(s, Wire(items), paclen);
    FeedWire(s.framer, items);
    TextOfMeaning(items);
  }

  // ---------------------------------------------------------------- two stations

  /** Bytes that are no text, between two frames. */
  predicate Silent(bytes: seq<byte>) { TextOf(Outs(NEW_FRAMER, bytes)) == [] }

  predicate SilentQueue(s: Session) { forall p :: p in s.xfer.pendingFrames ==> Silent(p) }

  /** The text on its way from x to y. */
  function Owed(x: Session, y: Session): seq<byte> { TextOf(Outs(y.framer, x.out)) }

  lemma FrameIsSilent(f: Frame)
    requires WellFormed(f)
    ensures Silent(Encode(f))
  {
    FeedEncoded(NEW_FRAMER, f);
    TextOfFrame(f);
  }

  lemma {:induction false} FramesAreSilent(fs: seq<Frame>)
    requires forall f :: f in fs ==> WellFormed(f)
    ensures forall p :: p in EncodeAll(fs) ==> Silent(p)
  {
    if fs != [] {
      assert fs[0] in fs;
      FrameIsSilent(fs[0]);
      FramesAreSilent(fs[1..]);
    }
  }

  lemma PlanIsSilent(file: File, paclen: int)
    requires Sendable(file)
    ensures forall p :: p in Plan(file.name, |file.data|, file.data, paclen) ==> Silent(p)
  {
    PlanEncodes(file, paclen);
    FramesAreSilent([HeaderOf(file)] + Body(file.data, ClampPaclen(paclen) - 2));
  }

  lemma OwedGrows(x: Session, x': Session, y: Session, bytes: seq<byte>)
    requires Whole(x, y) && x'.out == x.out + bytes
    ensures Owed(x', y) == Owed(x, y) + TextOf(Outs(NEW_FRAMER, bytes))
  {
    FeedAppend(y.framer, x.out, bytes);
    EquivalentFeed(After(y.framer, x.out), NEW_FRAMER, bytes);
    TextAppend(Outs(y.framer, x.out), Outs(NEW_FRAMER, bytes));
  }

  /** x says nothing new to y, and what it queues is silent. */
  predicate KeepsQuiet(x: Session, x': Session, y: Session) { Owed(x', y) == Owed(x, y) && SilentQueue(x') }

  lemma SilentBytes(x: Session, x': Session, y: Session, bytes: seq<byte>)
    requires Whole(x, y) && x'.out == x.out + bytes && Silent(bytes) && SilentQueue(x')
    ensures KeepsQuiet(x, x', y)
  {
    OwedGrows(x, x', y, bytes);
    Unit(Owed(x, y));
  }

  lemma AnswerIsSilent(x: Session, y: Session, g: Frame, paclen: int)
    requires Whole(x, y) && SilentQueue(x) && g.kind != RR
    ensures KeepsQuiet(x, Handle(x, g, paclen), y)
  {
    var x', e := Handle(x, g, paclen), Answer(x, g);
    AnswerGoesOut(x, g, paclen);
    if e != [] {
      FrameIsSilent(e[0]);
      SilentBytes(x, x', y, Encode(e[0]));
    }
  }

  lemma GrantIsSilent(x: Session, y: Session, paclen: int)
    requires Whole(x, y) && SilentQueue(x) && Sound(x) && OfferOk(x)
    ensures KeepsQuiet(x, OnRR(x, paclen), y)
  {
    if Asking(x) {
      var plan := Plan(x.xfer.name, x.xfer.total, x.xfer.pendingData, paclen);
      PlanIsSilent(x.offered, paclen);
      assert plan[0] in plan && !x.xfer.abortPending;
      var x' := OnRR(x, paclen);
      assert x'.out == x.out + plan[0] && x'.xfer.pendingFrames == plan[1..];
      SilentBytes(x, x', y, plan[0]);
    }
  }

  lemma HandleIsSilent(x: Session, y: Session, g: Frame, paclen: int)
    requires Whole(x, y) && SilentQueue(x) && Sound(x) && OfferOk(x)
    ensures KeepsQuiet(x, Handle(x, g, paclen), y)
  {
    if g.kind == RR {
      GrantIsSilent(x, y, paclen);
    } else {
      AnswerIsSilent(x, y, g, paclen);
    }
  }

  /** A byte from y's channel reaches x: the text moves along, and x says nothing. */
  lemma ByteMovesText(x: Session, y: Session, paclen: int)
    requires Inv(World(x, y)) && SilentQueue(x) && y.out != []
    ensures var x1, y1 := Receive1(x, y.out[0], paclen), y.(out := y.out[1..]);
            && x1.text + Owed(y1, x1) == x.text + Owed(y, x) && KeepsQuiet(x, x1, y1)
  {
    var (q, o) := Step(x.framer, y.out[0]);
    ByteShown(x, y.out[0], paclen);
    TextEmitted(o, Outs(q, y.out[1..]));
    Assoc(x.text, Shown(o), TextOf(Outs(q, y.out[1..])));
    if o.Dispatch? {
      HandleIsSilent(x, y, o.frame, paclen);
    }
  }

  lemma {:induction false} BytesMoveText(x: Session, y: Session, k: nat, paclen: int)
    requires Inv(World(x, y)) && SilentQueue(x) && k <= |y.out|
    ensures var x', y' := Receive(x, y.out[..k], paclen), y.(out := y.out[k..]);
            && x'.text + Owed(y', x') == x.text + Owed(y, x) && KeepsQuiet(x, x', y')
    decreases k
  {
    if k == 0 {
      assert y.out[0..] == y.out;
    } else {
      ByteMovesText(x, y, paclen);
      ByteKeeps(x, y, paclen);
      DeliverOne(x, y, k, paclen);
      BytesMoveText(Receive1(x, y.out[0], paclen), y.(out := y.out[1..]), k - 1, paclen);
    }
  }

  lemma BurstIsSilent(x: Session, y: Session)
    requires Whole(x, y) && SilentQueue(x) && Sound(x)
    ensures KeepsQuiet(x, TxReady(x), y) && TxReady(x).text == x.text && TxReady(x).framer == x.framer
  {
    var x' := TxReady(x);
    if x'.out != x.out {
      var p := x.xfer.pendingFrames[0];
      assert p in x.xfer.pendingFrames;
      assert x'.out == x.out + p && x'.xfer.pendingFrames == x.xfer.pendingFrames[1..];
      SilentBytes(x, x', y, p);
    }
  }

  lemma UserIsSilent(x: Session, y: Session, file: File)
    requires Whole(x, y) && SilentQueue(x)
    ensures KeepsQuiet(x, SendFile(x, file), y) && KeepsQuiet(x, Accept(x), y) && KeepsQuiet(x, Reject(x), y)
  {
    FrameIsSilent(Frame(SI, []));
    FrameIsSilent(Frame(RR, []));
    FrameIsSilent(Frame(CN, []));
    assert BuildSI() == Encode(Frame(SI, [])) && BuildRR() == Encode(Frame(RR, []));
    assert BuildCN([]) == Encode(Frame(CN, []));
    if SendFile(x, file) != x {
      SilentBytes(x, SendFile(x, file), y, BuildSI());
    }
    if Accept(x) != x {
      SilentBytes(x, Accept(x), y, BuildRR());
    }
    if Reject(x) != x {
      SilentBytes(x, Reject(x), y, BuildCN([]));
    }
  }

  function TypedBy(act: Action): seq<byte> { if act.Type? then act.text else [] }

  lemma TypedGoesOut(x: Session, y: Session, text: seq<byte>)
    requires Whole(x, y) && IsClean(text)
    ensures Owed(Send(x, text), y) == Owed(x, y) + text
  {
    OwedGrows(x, Send(x, text), y, text);
    FeedText(NEW_FRAMER, text);
    TextOfTextOuts(text);
  }

  /** An action of the first station moves text, and adds what it types. */
  lemma ActMovesText(w: World, act: Action)
    requires Inv(w) && SilentQueue(w.a) && SilentQueue(w.b) && Allowed(act)
    ensures var z := Act(w, act);
            && SilentQueue(z.a) && SilentQueue(z.b)
            && z.a.text + Owed(z.b, z.a) == w.a.text + Owed(w.b, w.a)
            && z.b.text + Owed(z.a, z.b) == w.b.text + Owed(w.a, w.b) + TypedBy(act)
  {
    Unit(w.b.text + Owed(w.a, w.b));
    match act {
      case Deliver(n, paclen) => BytesMoveText(w.a, w.b, if n < |w.b.out| then n else |w.b.out|, paclen);
      case Type(text) =>
        TypedGoesOut(w.a, w.b, text);
        Assoc(w.b.text, Owed(w.a, w.b), text);
      case Burst => BurstIsSilent(w.a, w.b);
      case Offer(file) => UserIsSilent(w.a, w.b, file);
      case _ => UserIsSilent(w.a, w.b, File([], []));
    }
  }

  /** All a station typed in a run. */
  function Typed(events: seq<Event>, byA: bool): seq<byte> {
    if events == [] then []
    else
      var e := events[|events| - 1];
      Typed(events[..|events| - 1], byA) + (if e.byA == byA then TypedBy(e.action) else [])
  }

  /** What each has shown and what is under way to it. */
  predicate Accounted(w: World, toA: seq<byte>, toB: seq<byte>) {
    && SilentQueue(w.a) && SilentQueue(w.b)
    && w.a.text + Owed(w.b, w.a) == toA && w.b.text + Owed(w.a, w.b) == toB
  }

  lemma EventMovesText(w: World, e: Event, toA: seq<byte>, toB: seq<byte>)
    requires Inv(w) && Accounted(w, toA, toB) && Allowed(e.action)
    ensures Accounted(Happen(w, e), toA + (if e.byA then [] else TypedBy(e.action)),
                      toB + (if e.byA then TypedBy(e.action) else []))
  {
    Unit(toA);
    Unit(toB);
    if e.byA {
      ActMovesText(w, e.action);
    } else {
      ActMovesText(Swap(w), e.action);
    }
  }

  /** In every run each station has shown, in order, what its peer typed, but for what is still on the
      channel; frames add nothing to it and take nothing away. */
  lemma {:induction false} TypedIsShown(events: seq<Event>)
    requires AllAllowed(events)
    ensures var w := Run(events);
            && w.b.text + Owed(w.a, w.b) == Typed(events, true) && w.a.text + Owed(w.b, w.a) == Typed(events, false)
            && SilentQueue(w.a) && SilentQueue(w.b)
  {
    if events != [] {
      var init, e := events[..|events| - 1], events[|events| - 1];
      assert forall x :: x in init ==> x in events;
      TypedIsShown(init);
      RunKeeps(init);
      assert e in events;
      EventMovesText(Run(init), e, Typed(init, false), Typed(init, true));
    }
  }

  /** So what a station shows is the beginning of what its peer typed, and all of it once the channel is
      empty. */
  lemma TextArrives(events: seq<Event>)
    requires AllAllowed(events)
    ensures var w := Run(events);
            && w.b.text <= Typed(events, true) && w.a.text <= Typed(events, false)
            && (w.a.out == [] ==> w.b.text == Typed(events, true))
            && (w.b.out == [] ==> w.a.text == Typed(events, false))
  {
    TypedIsShown(events);
    Unit(Run(events).a.text);
    Unit(Run(events).b.text);
  }
}
