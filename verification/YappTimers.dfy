/** The 60-second timers of a transfer over whole runs.  A timer remembers the session it was set for
    and not the transfer: when it is due it ends whatever transfer of that session is in the phase it
    was set for, be it a later one or one received that a header put in the place of the one offered. */
module YappTimers {
  import opened YappFrames
  import opened YappSession
  import opened YappCompletes
  import opened Bytes

  /** transfer is history: the number, among those this session sent, of the one that set the timer. */
  datatype Timer = Timer(awaited: XferPhase, transfer: nat, due: nat)

  /** A session with its timers, in the order they were set; offers counts the transfers it sent. */
  datatype Timed = Timed(s: Session, offers: nat, timers: seq<Timer>, now: nat)

  datatype Deed =
    | Offer(file: File)
    | AcceptOffer
    | RejectOffer
    | AbortTransfer
    | Burst
    | Read(chunk: seq<byte>, paclen: int)
    | Elapse(ms: nat)
    | Fire

  const PATIENCE: nat := 60000

  predicate Waits(s: Session, awaited: XferPhase) { s.xfer.active && s.xfer.phase == awaited }

  predicate Starts(s: Session, file: File) {
    file.name != [] && file.data != [] && s.connected && !s.xfer.active
  }

  function Arm(t: Timed, awaited: XferPhase): Timed {
    t.(timers := t.timers + [Timer(awaited, t.offers, t.now + PATIENCE)])
  }

  /** The timer at the head is due. */
  predicate Expiring(t: Timed) { t.timers != [] && t.timers[0].due <= t.now }

  function Do(t: Timed, step: Deed): Timed {
    match step
    case Offer(file) =>
      if Starts(t.s, file) then Arm(t.(s := SendFile(t.s, file), offers := t.offers + 1), AwaitingRR) else t
    case AcceptOffer => t.(s := Accept(t.s))
    case RejectOffer => t.(s := Reject(t.s))
    case AbortTransfer => t.(s := Abort(t.s))
    case Burst =>
      var r := t.(s := TxReady(t.s));
      if Waits(r.s, AwaitingAF) && !Waits(t.s, AwaitingAF) then Arm(r, AwaitingAF) else r
    case Read(chunk, paclen) => t.(s := Receive(t.s, chunk, paclen))
    case Elapse(ms) => t.(now := t.now + ms)
    case Fire =>
      if Expiring(t) then t.(s := Timeout(t.s, t.timers[0].awaited), timers := t.timers[1..]) else t
  }

  const NEW_TIMED := Timed(NEW_SESSION, 0, [], 0)

  function RunTimed(steps: seq<Deed>): Timed {
    if steps == [] then NEW_TIMED else Do(RunTimed(steps[..|steps| - 1]), steps[|steps| - 1])
  }

  lemma TimedSnoc(steps: seq<Deed>, step: Deed)
    ensures RunTimed(steps + [step]) == Do(RunTimed(steps), step)
  {
    assert (steps + [step])[..|steps|] == steps;
  }

  // ---------------------------------------------------------------- a waiting transfer's own timer is pending

  /** Timers are of this session's transfers, in the order both of the transfers and of being due. */
  predicate Ordered(timers: seq<Timer>, offers: nat, latest: nat) {
    timers != [] ==>
      var last := timers[|timers| - 1];
      && last.awaited in {AwaitingRR, AwaitingAF} && last.transfer <= offers && last.due <= latest
      && Ordered(timers[..|timers| - 1], last.transfer, last.due)
  }

  /** A wait is guarded by a timer that the last transfer offered set for it. */
  predicate Guarded(t: Timed, awaited: XferPhase) {
    Waits(t.s, awaited) ==>
      exists i :: 0 <= i < |t.timers| && t.timers[i].awaited == awaited && t.timers[i].transfer == t.offers
  }

  /** The session is sending and has not sent everything. */
  predicate Unfinished(s: Session) { s.xfer.active && s.xfer.dir == Tx && s.xfer.phase != AwaitingAF }

  /** Its transfer has then set no timer for the AF. */
  predicate Unarmed(t: Timed) {
    Unfinished(t.s) ==>
      forall i :: 0 <= i < |t.timers| && t.timers[i].awaited == AwaitingAF ==> t.timers[i].transfer != t.offers
  }

  predicate Kept(t: Timed) {
    && (!t.s.xfer.active ==> t.s.xfer.phase == NoPhase)
    && Ordered(t.timers, t.offers, t.now + PATIENCE)
    && Guarded(t, AwaitingRR) && Guarded(t, AwaitingAF) && Unarmed(t)
  }

  /** s became s' without starting to wait. */
  predicate NoNewWait(s: Session, s': Session) {
    && (!s.xfer.active ==> s.xfer.phase == NoPhase)
    && (!s'.xfer.active ==> s'.xfer.phase == NoPhase)
    && (Waits(s', AwaitingRR) ==> Waits(s, AwaitingRR)) && (Waits(s', AwaitingAF) ==> Waits(s, AwaitingAF))
    && (Unfinished(s') ==> Unfinished(s))
  }

  lemma PlanStartsNoWait(s: Session, plan: seq<seq<byte>>)
    requires Waits(s, AwaitingRR) && s.xfer.dir == Tx
    ensures NoNewWait(s, BeginPlan(s, plan))
  {
  }

  lemma HandleStartsNoWait(s: Session, f: Frame, paclen: int)
    requires !s.xfer.active ==> s.xfer.phase == NoPhase
    ensures NoNewWait(s, Handle(s, f, paclen))
  {
    match f.kind {
      case RR =>
        if Waits(s, AwaitingRR) && s.xfer.dir == Tx {
          PlanStartsNoWait(s, Plan(s.xfer.name, s.xfer.total, s.xfer.pendingData, paclen));
        }
      case _ =>
    }
  }

  lemma {:induction false} ReceiveStartsNoWait(s: Session, chunk: seq<byte>, paclen: int)
    requires !s.xfer.active ==> s.xfer.phase == NoPhase
    ensures NoNewWait(s, Receive(s, chunk, paclen))
    decreases |chunk|
  {
    if chunk != [] {
      var (q, o) := Step(s.framer, chunk[0]);
      if o.Dispatch? {
        HandleStartsNoWait(s, o.frame, paclen);
      }
      ReceiveStartsNoWait(Receive1(s, chunk[0], paclen), chunk[1..], paclen);
    }
  }

  lemma {:induction false} OrderedLater(timers: seq<Timer>, offers: nat, latest: nat, offers': nat, latest': nat)
    requires Ordered(timers, offers, latest) && offers <= offers' && latest <= latest'
    ensures Ordered(timers, offers', latest')
  {
  }

  lemma OrderedSnoc(timers: seq<Timer>, e: Timer)
    requires Ordered(timers, e.transfer, e.due) && e.awaited in {AwaitingRR, AwaitingAF}
    ensures Ordered(timers + [e], e.transfer, e.due)
  {
    assert (timers + [e])[..|timers|] == timers;
  }

  lemma {:induction false} OrderedTail(timers: seq<Timer>, offers: nat, latest: nat)
    requires Ordered(timers, offers, latest) && timers != []
    ensures Ordered(timers[1..], offers, latest)
  {
    if |timers| > 1 {
      var last := timers[|timers| - 1];
      OrderedTail(timers[..|timers| - 1], last.transfer, last.due);
      assert timers[1..][..|timers| - 2] == timers[..|timers| - 1][1..];
    }
  }

  lemma {:induction false} OrderedAt(timers: seq<Timer>, offers: nat, latest: nat, i: nat)
    requires Ordered(timers, offers, latest) && i < |timers|
    ensures timers[i].transfer <= offers && timers[i].due <= latest
    ensures timers[i].awaited in {AwaitingRR, AwaitingAF}
  {
    var last := timers[|timers| - 1];
    if i < |timers| - 1 {
      OrderedAt(timers[..|timers| - 1], last.transfer, last.due, i);
    }
  }

  lemma {:induction false} OrderedPair(timers: seq<Timer>, offers: nat, latest: nat, i: nat, j: nat)
    requires Ordered(timers, offers, latest) && i < j < |timers|
    ensures timers[i].transfer <= timers[j].transfer && timers[i].due <= timers[j].due
  {
    var last := timers[|timers| - 1];
    if j < |timers| - 1 {
      OrderedPair(timers[..|timers| - 1], last.transfer, last.due, i, j);
    } else {
      OrderedAt(timers[..|timers| - 1], last.transfer, last.due, i);
    }
  }

  lemma ArmKeeps(t: Timed, awaited: XferPhase)
    requires Waits(t.s, awaited) && awaited in {AwaitingRR, AwaitingAF} && (awaited == AwaitingRR ==> Unarmed(t))
    requires Ordered(t.timers, t.offers, t.now + PATIENCE)
    ensures Kept(Arm(t, awaited))
  {
    var e := Timer(awaited, t.offers, t.now + PATIENCE);
    OrderedSnoc(t.timers, e);
    var r := Arm(t, awaited);
    assert r.timers[|t.timers|] == e;
  }

  lemma QuietKeeps(t: Timed, s': Session)
    requires Kept(t) && NoNewWait(t.s, s')
    ensures Kept(t.(s := s'))
  {
  }

  lemma FireKeeps(t: Timed)
    requires Kept(t) && Expiring(t)
    ensures Kept(Do(t, Fire))
  {
    OrderedTail(t.timers, t.offers, t.now + PATIENCE);
    var r := Do(t, Fire);
    forall awaited | awaited in {AwaitingRR, AwaitingAF} ensures Guarded(r, awaited) {
      if Waits(r.s, awaited) {
        var i :| 0 <= i < |t.timers| && t.timers[i].awaited == awaited && t.timers[i].transfer == t.offers;
        assert r.timers[i - 1] == t.timers[i];
      }
    }
  }

  lemma OfferTimed(t: Timed, file: File)
    requires Kept(t) && Starts(t.s, file)
    ensures Kept(Do(t, Offer(file)))
  {
    OrderedLater(t.timers, t.offers, t.now + PATIENCE, t.offers + 1, t.now + PATIENCE);
    forall i | 0 <= i < |t.timers| ensures t.timers[i].transfer <= t.offers {
      OrderedAt(t.timers, t.offers, t.now + PATIENCE, i);
    }
    ArmKeeps(t.(s := SendFile(t.s, file), offers := t.offers + 1), AwaitingRR);
  }

  lemma BurstTimed(t: Timed)
    requires Kept(t)
    ensures Kept(Do(t, Burst))
  {
    var r := t.(s := TxReady(t.s));
    if Waits(r.s, AwaitingAF) && !Waits(t.s, AwaitingAF) {
      ArmKeeps(r, AwaitingAF);
    } else {
      QuietKeeps(t, r.s);
    }
  }

  lemma DoKeeps(t: Timed, step: Deed)
    requires Kept(t)
    ensures Kept(Do(t, step))
  {
    match step {
      case Offer(file) => if Starts(t.s, file) { OfferTimed(t, file); }
      case Burst => BurstTimed(t);
      case Read(chunk, paclen) =>
        ReceiveStartsNoWait(t.s, chunk, paclen);
        QuietKeeps(t, Do(t, step).s);
      case Elapse(ms) => OrderedLater(t.timers, t.offers, t.now + PATIENCE, t.offers, t.now + ms + PATIENCE);
      case Fire => if Expiring(t) { FireKeeps(t); }
      case _ => QuietKeeps(t, Do(t, step).s);
    }
  }

  /** The transfer that is on set this timer: it is being sent, and it was the last one offered. */
  predicate Mine(t: Timed, e: Timer) { t.s.xfer.dir == Tx && e.transfer == t.offers }

  predicate OwnPending(t: Timed, awaited: XferPhase) {
    Waits(t.s, awaited) && t.s.xfer.dir == Tx ==>
      exists i :: 0 <= i < |t.timers| && t.timers[i].awaited == awaited && Mine(t, t.timers[i])
  }

  lemma {:induction false} RunKept(steps: seq<Deed>)
    ensures Kept(RunTimed(steps))
  {
    if steps != [] {
      RunKept(steps[..|steps| - 1]);
      DoKeeps(RunTimed(steps[..|steps| - 1]), steps[|steps| - 1]);
    }
  }

  lemma GuardedIsOwn(t: Timed, awaited: XferPhase)
    requires Guarded(t, awaited)
    ensures OwnPending(t, awaited)
  {
    if Waits(t.s, awaited) && t.s.xfer.dir == Tx {
      var i :| 0 <= i < |t.timers| && t.timers[i].awaited == awaited && t.timers[i].transfer == t.offers;
      assert Mine(t, t.timers[i]);
    }
  }

  /** In every run a transfer being sent that waits for RR or AF has a timer of its own pending, and
      timers are due in the order of their transfers. */
  lemma OwnTimerPending(steps: seq<Deed>)
    ensures var t := RunTimed(steps);
            && OwnPending(t, AwaitingRR) && OwnPending(t, AwaitingAF) && Ordered(t.timers, t.offers, t.now + PATIENCE)
  {
    RunKept(steps);
    GuardedIsOwn(RunTimed(steps), AwaitingRR);
    GuardedIsOwn(RunTimed(steps), AwaitingAF);
  }

  // ---------------------------------------------------------------- a timer that ends another transfer

  /** The timer at the head ends a transfer that did not set it. */
  predicate EndsOther(t: Timed) {
    Expiring(t) && Do(t, Fire).s.xfer != t.s.xfer && !Mine(t, t.timers[0])
  }

  /** It does so exactly when a transfer that is being received, or one sent later, is in the phase it
      was set for; one that is sent has its own timer still pending, and due no earlier. */
  lemma EndsOtherIff(t: Timed)
    requires Kept(t) && Expiring(t)
    ensures var e, r := t.timers[0], Do(t, Fire);
            && (EndsOther(t) <==> Waits(t.s, e.awaited) && (t.s.xfer.dir != Tx || e.transfer < t.offers))
            && (EndsOther(t) ==> r.s == Notify(t.s, Ended(true)).(xfer := NO_XFER))
            && (EndsOther(t) && t.s.xfer.dir == Tx ==>
                  exists i :: 0 <= i < |r.timers| && r.timers[i].awaited == e.awaited
                                 && r.timers[i].transfer == t.offers && e.due <= r.timers[i].due)
  {
    var e, r := t.timers[0], Do(t, Fire);
    OrderedAt(t.timers, t.offers, t.now + PATIENCE, 0);
    if EndsOther(t) && t.s.xfer.dir == Tx {
      assert Guarded(t, e.awaited);
      var i :| 0 <= i < |t.timers| && t.timers[i].awaited == e.awaited && t.timers[i].transfer == t.offers;
      OrderedPair(t.timers, t.offers, t.now + PATIENCE, 0, i);
      assert r.timers[i - 1] == t.timers[i];
    }
  }

  // ---------------------------------------------------------------- who ends a wait

  /** A timer of an earlier transfer, set for this phase, is pending. */
  predicate Stale(t: Timed, awaited: XferPhase) {
    exists i :: 0 <= i < |t.timers| && t.timers[i].awaited == awaited && t.timers[i].transfer < t.offers
  }

  /** When the next timer expires. */
  function Later(t: Timed): nat
    requires t.timers != []
  {
    if t.now < t.timers[0].due then t.timers[0].due else t.now
  }

  /** Time passes until the next timer is due, and it expires. */
  function LetExpire(t: Timed): Timed
    requires t.timers != []
  {
    t.(now := Later(t), s := Timeout(t.s, t.timers[0].awaited), timers := t.timers[1..])
  }

  /** These are two steps of a run. */
  lemma ExpiresInTwo(t: Timed)
    requires t.timers != []
    ensures Do(Do(t, Elapse(Later(t) - t.now)), Fire) == LetExpire(t)
  {
  }

  /** Nothing happens but n timers expiring. */
  function Expired(t: Timed, n: nat): (r: Timed)
    requires n <= |t.timers|
    ensures r.timers == t.timers[n..] && r.offers == t.offers
  {
    if n == 0 then t else LetExpire(Expired(t, n - 1))
  }

  /** The first timer that is set for this phase. */
  function First(timers: seq<Timer>, awaited: XferPhase): (k: nat)
    ensures k <= |timers|
    ensures forall i :: 0 <= i < k ==> timers[i].awaited != awaited
    ensures k < |timers| ==> timers[k].awaited == awaited
  {
    if timers == [] || timers[0].awaited == awaited then 0 else 1 + First(timers[1..], awaited)
  }

  lemma ExpiredNext(t: Timed, n: nat)
    requires n < |t.timers|
    ensures Expired(t, n + 1).s == Timeout(Expired(t, n).s, t.timers[n].awaited)
  {
    assert Expired(t, n).timers[0] == t.timers[n];
  }

  lemma OthersTimeout(s: Session, awaited: XferPhase, other: XferPhase)
    requires Waits(s, awaited) && other != awaited
    ensures Timeout(s, other) == s
  {
  }

  lemma {:induction false} OthersChangeNothing(t: Timed, awaited: XferPhase, n: nat)
    requires Waits(t.s, awaited) && n <= First(t.timers, awaited)
    ensures Expired(t, n).s == t.s
  {
    if n > 0 {
      OthersChangeNothing(t, awaited, n - 1);
      ExpiredNext(t, n - 1);
      OthersTimeout(t.s, awaited, t.timers[n - 1].awaited);
    }
  }

  lemma FirstOwnIff(t: Timed, awaited: XferPhase)
    requires Kept(t) && Waits(t.s, awaited) && awaited in {AwaitingRR, AwaitingAF}
    ensures var k := First(t.timers, awaited);
            k < |t.timers| && (t.timers[k].transfer == t.offers <==> !Stale(t, awaited))
  {
    var k := First(t.timers, awaited);
    assert Guarded(t, awaited);
    var own :| 0 <= own < |t.timers| && t.timers[own].awaited == awaited && t.timers[own].transfer == t.offers;
    OrderedAt(t.timers, t.offers, t.now + PATIENCE, k);
    if Stale(t, awaited) {
      var i :| 0 <= i < |t.timers| && t.timers[i].awaited == awaited && t.timers[i].transfer < t.offers;
      if k < i {
        OrderedPair(t.timers, t.offers, t.now + PATIENCE, k, i);
      }
    }
  }

  lemma WaitEnds(t: Timed, awaited: XferPhase)
    requires Kept(t) && Waits(t.s, awaited) && awaited in {AwaitingRR, AwaitingAF}
    ensures var k := First(t.timers, awaited);
            k < |t.timers| && Expired(t, k).s == t.s && Expired(t, k + 1).s == Timeout(t.s, awaited)
  {
    var k := First(t.timers, awaited);
    FirstOwnIff(t, awaited);
    OthersChangeNothing(t, awaited, k);
    ExpiredNext(t, k);
  }

  /** The transfer that is on is given up. */
  function Ending(s: Session): Session { Notify(s, Ended(true)).(xfer := NO_XFER) }

  /** Where a wait stands: the first timer set for its phase will end it if only time passes, and that
      timer is its own exactly when the transfer is being sent and no earlier one's is pending. */
  predicate EndsByOwnIff(t: Timed, awaited: XferPhase) {
    var k := First(t.timers, awaited);
    && k < |t.timers| && Expired(t, k).s == t.s
    && Expired(t, k + 1).s == Ending(t.s)
    && (Mine(t, t.timers[k]) <==> t.s.xfer.dir == Tx && !Stale(t, awaited))
  }

  /** This holds at any point of any run. */
  lemma WaitEndedByOwnIff(steps: seq<Deed>, awaited: XferPhase)
    requires Waits(RunTimed(steps).s, awaited) && awaited in {AwaitingRR, AwaitingAF}
    ensures EndsByOwnIff(RunTimed(steps), awaited)
  {
    RunKept(steps);
    WaitEnds(RunTimed(steps), awaited);
    FirstOwnIff(RunTimed(steps), awaited);
  }

  // ---------------------------------------------------------------- runs in which none does

  predicate Pending(t: Timed, awaited: XferPhase) {
    exists i :: 0 <= i < |t.timers| && t.timers[i].awaited == awaited
  }

  /** A wait only begins when no timer for it is pending. */
  predicate Clear(t: Timed, step: Deed, awaited: XferPhase) {
    Waits(Do(t, step).s, awaited) && !Waits(t.s, awaited) ==> !Pending(t, awaited)
  }

  /** A transfer offered gives way to one received, in the phase it was in. */
  predicate TakenOver(s: Session, s': Session, awaited: XferPhase) {
    Waits(s, awaited) && s.xfer.dir == Tx && Waits(s', awaited) && s'.xfer.dir != Tx
  }

  /** It does exactly at a header with a name. */
  lemma TakenOverIff(s: Session, f: Frame, paclen: int, awaited: XferPhase)
    requires Waits(s, awaited) && s.xfer.dir == Tx && awaited in {AwaitingRR, AwaitingAF}
    ensures TakenOver(s, Handle(s, f, paclen), awaited) <==> f.kind == HD && HasName(f.data)
  {
  }

  /** A step after which a timer set by another transfer is due to end a wait: the wait begins with one
      pending, or a received transfer takes it over. */
  predicate Breach(t: Timed, step: Deed, awaited: XferPhase) {
    !Clear(t, step, awaited) || TakenOver(t.s, Do(t, step).s, awaited)
  }

  predicate Spaced(steps: seq<Deed>) {
    steps != [] ==>
      var init, last := steps[..|steps| - 1], steps[|steps| - 1];
      Spaced(init) && !Breach(RunTimed(init), last, AwaitingRR) && !Breach(RunTimed(init), last, AwaitingAF)
  }

  predicate OnlyOwn(t: Timed, awaited: XferPhase) { Waits(t.s, awaited) ==> t.s.xfer.dir == Tx && !Stale(t, awaited) }

  /** A wait that has just begun, with no other timer set for it. */
  lemma JustArmed(t: Timed, awaited: XferPhase)
    requires !Pending(t, awaited)
    ensures !Stale(Arm(t, awaited), awaited)
  {
    var r := Arm(t, awaited);
    assert forall i :: 0 <= i < |t.timers| ==> r.timers[i] == t.timers[i];
  }

  lemma FireOnlyOwn(t: Timed, awaited: XferPhase)
    requires Expiring(t) && OnlyOwn(t, awaited)
    ensures OnlyOwn(Do(t, Fire), awaited)
  {
    var r := Do(t, Fire);
    if Stale(r, awaited) {
      var i :| 0 <= i < |r.timers| && r.timers[i].awaited == awaited && r.timers[i].transfer < r.offers;
      assert t.timers[i + 1] == r.timers[i];
    }
  }

  lemma DoOnlyOwn(t: Timed, step: Deed, awaited: XferPhase)
    requires Kept(t) && awaited in {AwaitingRR, AwaitingAF} && !Breach(t, step, awaited) && OnlyOwn(t, awaited)
    ensures OnlyOwn(Do(t, step), awaited)
  {
    match step {
      case Offer(file) =>
        if Starts(t.s, file) {
          assert Pending(t, awaited) == Pending(t.(s := SendFile(t.s, file), offers := t.offers + 1), awaited);
          if awaited == AwaitingRR {
            JustArmed(t.(s := SendFile(t.s, file), offers := t.offers + 1), awaited);
          }
        }
      case Burst =>
        var r := t.(s := TxReady(t.s));
        assert Pending(t, awaited) == Pending(r, awaited) && Stale(t, awaited) == Stale(r, awaited);
        if awaited == AwaitingAF && Waits(r.s, awaited) && !Waits(t.s, awaited) {
          JustArmed(r, awaited);
        }
      case Read(chunk, paclen) => ReceiveStartsNoWait(t.s, chunk, paclen);
      case Fire => if Expiring(t) { FireOnlyOwn(t, awaited); }
      case _ =>
    }
  }

  /** In a run whose waits all begin with no timer for them pending and are not taken over, no timer ever
      ends a transfer that did not set it. */
  lemma {:induction false} SpacedNeverCutShort(steps: seq<Deed>)
    requires Spaced(steps)
    ensures var t := RunTimed(steps); OnlyOwn(t, AwaitingRR) && OnlyOwn(t, AwaitingAF) && !EndsOther(t)
  {
    var t := RunTimed(steps);
    RunKept(steps);
    if steps != [] {
      var init, last := steps[..|steps| - 1], steps[|steps| - 1];
      SpacedNeverCutShort(init);
      RunKept(init);
      DoOnlyOwn(RunTimed(init), last, AwaitingRR);
      DoOnlyOwn(RunTimed(init), last, AwaitingAF);
    }
    if EndsOther(t) {
      EndsOtherIff(t);
      OrderedAt(t.timers, t.offers, t.now + PATIENCE, 0);
    }
  }

  lemma OfferBreach(t: Timed, file: File)
    requires Kept(t) && Starts(t.s, file) && Pending(t, AwaitingRR)
    ensures Stale(Do(t, Offer(file)), AwaitingRR)
  {
    var i :| 0 <= i < |t.timers| && t.timers[i].awaited == AwaitingRR;
    OrderedAt(t.timers, t.offers, t.now + PATIENCE, i);
    assert Do(t, Offer(file)).timers[i] == t.timers[i];
  }

  lemma BurstBreach(t: Timed)
    requires Kept(t) && Unfinished(t.s) && Pending(t, AwaitingAF)
    ensures Stale(Do(t, Burst), AwaitingAF)
  {
    var i :| 0 <= i < |t.timers| && t.timers[i].awaited == AwaitingAF;
    OrderedAt(t.timers, t.offers, t.now + PATIENCE, i);
    assert Do(t, Burst).timers[i] == t.timers[i];
  }

  lemma BreachIsStale(t: Timed, step: Deed, awaited: XferPhase)
    requires Kept(t) && awaited in {AwaitingRR, AwaitingAF} && !Clear(t, step, awaited)
    ensures Stale(Do(t, step), awaited)
  {
    match step {
      case Offer(file) => OfferBreach(t, file);
      case Burst => BurstBreach(t);
      case Read(chunk, paclen) =>
        ReceiveStartsNoWait(t.s, chunk, paclen);
        assert false;
      case _ => assert false;
    }
  }

  /** And every breach, in whatever run, leaves a wait that is ended by a timer of another transfer if
      only time passes. */
  lemma BreachIsCutShort(steps: seq<Deed>, last: Deed, awaited: XferPhase)
    requires awaited in {AwaitingRR, AwaitingAF} && Breach(RunTimed(steps), last, awaited)
    ensures var t := RunTimed(steps + [last]);
            Waits(t.s, awaited) && EndsByOwnIff(t, awaited) && !Mine(t, t.timers[First(t.timers, awaited)])
  {
    RunKept(steps);
    TimedSnoc(steps, last);
    if !Clear(RunTimed(steps), last, awaited) {
      BreachIsStale(RunTimed(steps), last, awaited);
    }
    WaitEndedByOwnIff(steps + [last], awaited);
  }

  // ---------------------------------------------------------------- a header in a wait

  /** A header the peer can send. */
  predicate Announced(name: seq<byte>, size: nat) {
    0 !in name && |HeaderBody(name, size)| <= 255 && size < 0x8000_0000_0000_0000
  }

  predicate SendsAtAll(file: File) { file.name != [] && file.data != [] }

  /** The peer's offer is accepted and, its header on the way, aborted; then a file is offered, and the
      header arrives. */
  function Crossed(file: File, name: seq<byte>, size: nat): seq<Deed> {
    [Read(BuildSI(), 128), AcceptOffer, AbortTransfer, Offer(file), Read(BuildHD(name, size), 128), Elapse(PATIENCE)]
  }

  lemma AfterNext(steps: seq<Deed>, k: nat, t: Timed)
    requires k < |steps| && RunTimed(steps[..k]) == t
    ensures RunTimed(steps[..k + 1]) == Do(t, steps[k])
  {
    PrefixNext(steps, k);
    TimedSnoc(steps[..k], steps[k]);
  }

  lemma TimedRead(t: Timed, f: Frame) returns (g: Framer)
    requires t.s.framer.phase == Idle && WellFormed(f)
    ensures Do(t, Read(Encode(f), 128)) == t.(s := Handle(t.s, f, 128).(framer := g)) && g.phase == Idle
  {
    g := OneReceive(t.s, f, 128);
  }

  /** Idle again, and no timer set yet. */
  predicate Fresh(t: Timed) {
    && t.s.xfer == NO_XFER && t.s.connected && t.s.framer.phase == Idle
    && t.offers == 0 && t.now == 0 && t.timers == []
  }

  lemma AbortFreshens(t: Timed, g: Framer)
    requires t == NEW_TIMED.(s := OnSI(NEW_SESSION).(framer := g)) && g.phase == Idle
    ensures Fresh(Do(Do(t, AcceptOffer), AbortTransfer))
  {
  }

  lemma CrossedAbort(steps: seq<Deed>)
    requires |steps| >= 3 && steps[0] == Read(BuildSI(), 128) && steps[1] == AcceptOffer && steps[2] == AbortTransfer
    ensures Fresh(RunTimed(steps[..3]))
  {
    var si := Frame(SI, []);
    assert BuildSI() == Encode(si) && steps[..0] == [];
    var g := TimedRead(NEW_TIMED, si);
    var t := NEW_TIMED.(s := OnSI(NEW_SESSION).(framer := g));
    AfterNext(steps, 0, NEW_TIMED);
    AfterNext(steps, 1, t);
    AfterNext(steps, 2, Do(t, AcceptOffer));
    AbortFreshens(t, g);
  }

  /** What the offer leaves. */
  predicate FirstOffer(t: Timed) {
    && Waits(t.s, AwaitingRR) && t.s.framer.phase == Idle
    && t.offers == 1 && t.now == 0 && t.timers == [Timer(AwaitingRR, 1, PATIENCE)]
  }

  lemma OffersFirst(t: Timed, file: File)
    requires Fresh(t) && SendsAtAll(file)
    ensures FirstOffer(Do(t, Offer(file)))
  {
  }

  /** The header takes the offer's place, in its phase. */
  predicate Receiving(t: Timed, name: seq<byte>) {
    && Waits(t.s, AwaitingRR) && t.s.xfer.dir == Rx && t.s.xfer.name == name
    && t.s.file.active && t.s.file.filename == name
  }

  lemma HeaderTakesOver(t: Timed, name: seq<byte>, size: nat)
    requires FirstOffer(t) && Announced(name, size)
    ensures var r := Do(t, Read(BuildHD(name, size), 128));
            Receiving(r, name) && r.now == 0 && r.timers == t.timers
  {
    var f := Frame(HD, HeaderBody(name, size));
    assert BuildHD(name, size) == Encode(f);
    HeaderRoundTrip(name, size);
    var g := TimedRead(t, f);
  }

  lemma OfferInRun(steps: seq<Deed>, k: nat, file: File)
    requires k < |steps| && steps[k] == Offer(file) && SendsAtAll(file) && Fresh(RunTimed(steps[..k]))
    ensures FirstOffer(RunTimed(steps[..k + 1]))
  {
    OffersFirst(RunTimed(steps[..k]), file);
    AfterNext(steps, k, RunTimed(steps[..k]));
  }

  lemma HeaderInRun(steps: seq<Deed>, k: nat, name: seq<byte>, size: nat)
    requires k < |steps| && steps[k] == Read(BuildHD(name, size), 128) && Announced(name, size)
    requires FirstOffer(RunTimed(steps[..k]))
    ensures var t := RunTimed(steps[..k + 1]);
            Receiving(t, name) && t.now == 0 && t.timers == [Timer(AwaitingRR, 1, PATIENCE)]
  {
    HeaderTakesOver(RunTimed(steps[..k]), name, size);
    AfterNext(steps, k, RunTimed(steps[..k]));
  }

  lemma ReceivingStruck(t: Timed, name: seq<byte>)
    requires Receiving(t, name) && t.timers == [Timer(AwaitingRR, 1, t.now)]
    ensures EndsOther(t) && Do(t, Fire).s.xfer == NO_XFER
  {
  }

  /** For any file and any header: after a minute the offer's timer, the only one ever set, ends the
      transfer that is being received. */
  lemma CrossedHeaderStruck(file: File, name: seq<byte>, size: nat)
    requires SendsAtAll(file) && Announced(name, size)
    ensures var t := RunTimed(Crossed(file, name, size));
            && Receiving(t, name) && t.timers == [Timer(AwaitingRR, 1, t.now)]
            && EndsOther(t) && Do(t, Fire).s.xfer == NO_XFER
  {
    var steps := Crossed(file, name, size);
    CrossedAbort(steps);
    OfferInRun(steps, 3, file);
    HeaderInRun(steps, 4, name, size);
    AfterNext(steps, 5, RunTimed(steps[..5]));
    PrefixEnds(steps);
    ReceivingStruck(RunTimed(steps[..5]).(now := PATIENCE), name);
  }

  // ---------------------------------------------------------------- the timer of a refused transfer

  /** An offer that was refused at once. */
  lemma Refused(first: File) returns (steps: seq<Deed>)
    requires SendsAtAll(first)
    ensures var t := RunTimed(steps);
            && t.s.xfer == NO_XFER && t.s.connected && t.offers == 1 && t.now == 0
            && t.timers == [Timer(AwaitingRR, 1, PATIENCE)]
  {
    assert BuildCN([]) == Encode(Frame(CN, []));
    TimedSnoc([], Offer(first));
    steps := [] + [Offer(first)];
    var g := TimedRead(RunTimed(steps), Frame(CN, []));
    TimedSnoc(steps, Read(BuildCN([]), 128));
    steps := steps + [Read(BuildCN([]), 128)];
  }

  /** A refused offer, and another one ms later. */
  lemma Reoffered(first: File, second: File, ms: nat) returns (steps: seq<Deed>)
    requires SendsAtAll(first) && SendsAtAll(second)
    ensures var t := RunTimed(steps);
            && Waits(t.s, AwaitingRR) && t.s.offered == second && t.offers == 2 && t.now == ms
            && t.timers == [Timer(AwaitingRR, 1, PATIENCE), Timer(AwaitingRR, 2, ms + PATIENCE)]
  {
    steps := Refused(first);
    TimedSnoc(steps, Elapse(ms));
    steps := steps + [Elapse(ms)];
    TimedSnoc(steps, Offer(second));
    steps := steps + [Offer(second)];
  }

  /** For any two files and any time short of a minute: the second, offered that long after the first
      and refused by nobody, is given up when the first one's minute is over. */
  lemma RefusedOffersTimerStrikes(first: File, second: File, ms: nat) returns (steps: seq<Deed>)
    requires SendsAtAll(first) && SendsAtAll(second) && ms <= PATIENCE
    ensures var t := RunTimed(steps);
            && EndsOther(t) && t.s.offered == second
            && t.timers == [Timer(AwaitingRR, 1, t.now), Timer(AwaitingRR, t.offers, t.now + ms)]
  {
    steps := Reoffered(first, second, ms);
    TimedSnoc(steps, Elapse(PATIENCE - ms));
    steps := steps + [Elapse(PATIENCE - ms)];
  }

  /** An offer nobody answers is given up when a minute is over, and not before. */
  lemma GivenUpAfterAMinute(file: File, ms: nat)
    requires SendsAtAll(file)
    ensures var t := RunTimed([Offer(file), Elapse(ms), Fire]);
            Waits(t.s, AwaitingRR) <==> ms < 60000
  {
    var steps := [Offer(file), Elapse(ms), Fire];
    AfterNext(steps, 0, NEW_TIMED);
    AfterNext(steps, 1, Do(NEW_TIMED, Offer(file)));
    AfterNext(steps, 2, Do(Do(NEW_TIMED, Offer(file)), Elapse(ms)));
    PrefixEnds(steps);
  }
}
