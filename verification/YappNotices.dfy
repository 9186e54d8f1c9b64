/** What the user is told: over any run of one session, aborts and timers included, the last notice says
    what transfer is on, and a transfer ends well exactly when its file has just been reported. */
module YappNotices {
  import opened Bytes
  import opened YappFrames
  import opened YappSession
  import opened YappLink
  import opened YappCompletes
  import opened YappTimers

  predicate Arriving(s: Session) {
    && s.file.active && s.file.filename == s.xfer.name && s.file.filesize == s.xfer.total
    && s.xfer.done == |s.file.fileBuf|
  }

  /** The transfer the user sees: the one being sent with name and size of the file offered, neither
      empty, and whether it still waits for an answer; the one being received with name, size and as many
      bytes as have come; a request; none. */
  predicate Showing(s: Session) {
    if !s.xfer.active then s.notices == [] || s.notices[|s.notices| - 1].Ended?
    else
      && s.notices != []
      && var n := s.notices[|s.notices| - 1];
      if s.xfer.dir == Tx then
        && n == Started(Tx, s.xfer.name, s.xfer.total, if s.xfer.phase == AwaitingRR then AwaitingRR else Active)
        && s.xfer.name == s.offered.name != [] && s.xfer.total == |s.offered.data| > 0
      else
        && s.xfer.dir == Rx
        && (n == Requested || (n.Started? && n == Started(Rx, s.xfer.name, s.xfer.total, n.phase) && Arriving(s)))
  }

  predicate IsReport(n: Notice) { n.FileSent? || n.FileReceived? }

  /** A good end follows each report and nothing else. */
  predicate EndsWell(ns: seq<Notice>) {
    && (forall i :: 0 <= i < |ns| && IsReport(ns[i]) ==> i + 1 < |ns| && ns[i + 1] == Ended(false))
    && (forall i :: 0 <= i < |ns| && ns[i] == Ended(false) ==> i > 0 && IsReport(ns[i - 1]))
  }

  predicate TellsTruth(s: Session) { Showing(s) && EndsWell(s.notices) }

  lemma AnotherNotice(ns: seq<Notice>, n: Notice)
    requires EndsWell(ns) && !IsReport(n) && n != Ended(false)
    ensures EndsWell(ns + [n])
  {
    var all := ns + [n];
    assert forall i :: 0 <= i < |ns| ==> all[i] == ns[i];
  }

  lemma AnotherReport(ns: seq<Notice>, n: Notice)
    requires EndsWell(ns) && IsReport(n)
    ensures EndsWell(ns + [n] + [Ended(false)])
  {
    var all := ns + [n] + [Ended(false)];
    assert forall i :: 0 <= i < |ns| ==> all[i] == ns[i];
    assert all[|ns|] == n && all[|ns| + 1] == Ended(false);
  }

  lemma PumpTells(s: Session)
    requires TellsTruth(s)
    ensures TellsTruth(PumpNext(s))
  {
    AnotherNotice(s.notices, Ended(true));
  }

  lemma DataPhaseTells(s: Session, plan: seq<seq<byte>>)
    requires TellsTruth(s) && s.xfer.active && s.xfer.dir == Tx
    ensures TellsTruth(BeginPlan(s, plan))
  {
    var x := s.xfer.(phase := Active, pendingData := [], pendingFrames := plan,
                     framesPlanned := |plan|, framesSent := 0);
    var told := Notify(s.(xfer := x), Started(x.dir, x.name, x.total, Active));
    AnotherNotice(s.notices, Started(x.dir, x.name, x.total, Active));
    PumpTells(told);
  }

  lemma HeaderTells(s: Session, body: seq<byte>)
    requires TellsTruth(s)
    ensures TellsTruth(OnHD(s, body))
  {
    if HasName(body) {
      AnotherNotice(s.notices, Started(Rx, HeaderName(body), HeaderSize(body), s.xfer.phase));
    }
  }

  lemma EndTells(s: Session)
    requires TellsTruth(s)
    ensures TellsTruth(OnEF(s)) && TellsTruth(OnAF(s)) && TellsTruth(OnCN(s))
  {
    AnotherReport(s.notices, FileReceived(s.file.filename, s.file.fileBuf));
    AnotherReport(s.notices, FileSent(s.xfer.name, s.xfer.total));
    AnotherNotice(s.notices, Ended(true));
  }

  lemma RequestTells(s: Session)
    requires TellsTruth(s)
    ensures TellsTruth(OnSI(s))
  {
    AnotherNotice(s.notices, Requested);
  }

  lemma GrantTells(s: Session, paclen: int)
    requires TellsTruth(s)
    ensures TellsTruth(OnRR(s, paclen))
  {
    if Waits(s, AwaitingRR) && s.xfer.dir == Tx {
      DataPhaseTells(s, Plan(s.xfer.name, s.xfer.total, s.xfer.pendingData, paclen));
    }
  }

  lemma BlockTells(s: Session, data: seq<byte>)
    requires TellsTruth(s)
    ensures TellsTruth(OnDT(s, data))
  {
  }

  lemma HandleTells(s: Session, f: Frame, paclen: int)
    requires TellsTruth(s)
    ensures TellsTruth(Handle(s, f, paclen))
  {
    match f.kind {
      case SI => RequestTells(s);
      case RR => GrantTells(s, paclen);
      case HD => HeaderTells(s, f.data);
      case DT => BlockTells(s, f.data);
      case EF => EndTells(s);
      case AF => EndTells(s);
      case CN => EndTells(s);
      case _ =>
    }
  }

  /** Framer and text have nothing to do with it. */
  lemma TellsAnyway(s: Session, q: Framer, text: seq<byte>)
    requires TellsTruth(s)
    ensures TellsTruth(s.(framer := q)) && TellsTruth(s.(framer := q, text := text))
  {
  }

  lemma ByteTells(s: Session, b: byte, paclen: int)
    requires TellsTruth(s)
    ensures TellsTruth(Receive1(s, b, paclen))
  {
    var (q, o) := Step(s.framer, b);
    if o.Dispatch? {
      HandleTells(s, o.frame, paclen);
      TellsAnyway(Handle(s, o.frame, paclen), q, []);
    } else {
      TellsAnyway(s, q, s.text + (if o.Text? then [o.b] else []));
    }
  }

  lemma {:induction false} ReceiveTells(s: Session, chunk: seq<byte>, paclen: int)
    requires TellsTruth(s)
    ensures TellsTruth(Receive(s, chunk, paclen))
    decreases |chunk|
  {
    if chunk != [] {
      ByteTells(s, chunk[0], paclen);
      ReceiveTells(Receive1(s, chunk[0], paclen), chunk[1..], paclen);
    }
  }

  lemma UserTells(s: Session, file: File)
    requires TellsTruth(s)
    ensures TellsTruth(SendFile(s, file)) && TellsTruth(Accept(s)) && TellsTruth(Reject(s)) && TellsTruth(Abort(s))
  {
    AnotherNotice(s.notices, Started(Tx, file.name, |file.data|, AwaitingRR));
    AnotherNotice(s.notices, Ended(true));
  }

  lemma CountTells(s: Session, sent: int, share: int)
    requires TellsTruth(s) && s.xfer.active && s.xfer.dir == Tx && s.xfer.phase == Active
    ensures TellsTruth(s.(xfer := s.xfer.(framesSent := sent, done := share)))
    ensures TellsTruth(s.(xfer := s.xfer.(framesSent := sent, done := share, phase := AwaitingAF)))
  {
  }

  lemma BurstTells(s: Session)
    requires TellsTruth(s)
    ensures TellsTruth(TxReady(s))
  {
    if s.xfer.active && s.xfer.dir == Tx && s.xfer.phase == Active {
      var sent, planned := s.xfer.framesSent + 1, s.xfer.framesPlanned;
      var share := if planned > 0 then Least(s.xfer.total, s.xfer.total * sent / planned) else s.xfer.done;
      CountTells(s, sent, share);
      PumpTells(s.(xfer := s.xfer.(framesSent := sent, done := share)));
    }
  }

  lemma DeedTells(t: Timed, step: Deed)
    requires TellsTruth(t.s)
    ensures TellsTruth(Do(t, step).s)
  {
    match step {
      case Offer(file) => UserTells(t.s, file);
      case Burst => BurstTells(t.s);
      case Read(chunk, paclen) => ReceiveTells(t.s, chunk, paclen);
      case Fire => AnotherNotice(t.s.notices, Ended(true));
      case _ => UserTells(t.s, File([], []));
    }
  }

  /** In every run the last notice shows the transfer that is on, or that none is, and good ends and
      reported files go together. */
  lemma {:induction false} NoticesTell(steps: seq<Deed>)
    ensures TellsTruth(RunTimed(steps).s)
  {
    if steps != [] {
      NoticesTell(steps[..|steps| - 1]);
      DeedTells(RunTimed(steps[..|steps| - 1]), steps[|steps| - 1]);
    }
  }

  // ---------------------------------------------------------------- nothing without a header

  /** A notice that delivers nothing, and two. */
  lemma NothingNew(ns: seq<Notice>, m: Notice, n: Notice)
    requires !m.FileReceived? && !n.FileReceived?
    ensures Delivered(ns + [m]) == Delivered(ns) == Delivered(ns + [m] + [n])
  {
    Told(ns, m);
    Told(ns + [m], n);
  }

  lemma GrantNoFile(s: Session, plan: seq<seq<byte>>)
    ensures BeginPlan(s, plan).file == s.file && Delivered(BeginPlan(s, plan).notices) == Delivered(s.notices)
  {
    NothingNew(s.notices, Started(s.xfer.dir, s.xfer.name, s.xfer.total, Active), Ended(true));
  }

  /** t has no file either, and nothing more was delivered. */
  predicate NoFile(s: Session, t: Session) { !t.file.active && Delivered(t.notices) == Delivered(s.notices) }

  lemma RequestNoFile(s: Session)
    requires !s.file.active
    ensures NoFile(s, OnSI(s))
  {
    NothingNew(s.notices, Requested, Requested);
  }

  lemma AckNoFile(s: Session)
    requires !s.file.active
    ensures NoFile(s, OnAF(s))
  {
    NothingNew(s.notices, FileSent(s.xfer.name, s.xfer.total), Ended(false));
  }

  lemma CancelNoFile(s: Session)
    requires !s.file.active
    ensures NoFile(s, OnCN(s))
  {
    NothingNew(s.notices, Ended(true), Ended(true));
  }

  lemma NoHeaderNoFile(s: Session, f: Frame, paclen: int)
    requires !s.file.active && f.kind != HD
    ensures NoFile(s, Handle(s, f, paclen))
  {
    match f.kind {
      case SI => RequestNoFile(s);
      case RR => GrantNoFile(s, Plan(s.xfer.name, s.xfer.total, s.xfer.pendingData, paclen));
      case AF => AckNoFile(s);
      case CN => CancelNoFile(s);
      case _ =>
    }
  }

  lemma {:induction false} NothingWithoutHeader(s: Session, fs: seq<Frame>, paclen: int)
    requires !s.file.active && forall f :: f in fs ==> f.kind != HD
    ensures NoFile(s, HandleAll(s, fs, paclen))
    decreases |fs|
  {
    if fs != [] {
      assert fs[0] in fs;
      NoHeaderNoFile(s, fs[0], paclen);
      NothingWithoutHeader(Handle(s, fs[0], paclen), fs[1..], paclen);
    }
  }

  /** What was received of a file is gone when a cancel is read in a transfer, or the receiver aborts:
      whatever frames come then, no file is delivered before another header. */
  lemma CancelDiscards(s: Session, fs: seq<Frame>, paclen: int)
    requires s.xfer.active && forall f :: f in fs ==> f.kind != HD
    ensures Delivered(HandleAll(OnCN(s), fs, paclen).notices) == Delivered(s.notices)
    ensures s.xfer.dir == Rx ==> Delivered(HandleAll(Abort(s), fs, paclen).notices) == Delivered(s.notices)
  {
    Told(s.notices, Ended(true));
    NothingWithoutHeader(OnCN(s), fs, paclen);
    if s.xfer.dir == Rx {
      NothingWithoutHeader(Abort(s), fs, paclen);
    }
  }
}
