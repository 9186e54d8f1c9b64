/** Where the reported files come from: they are files the user of that station offered, in the
    order offered. */
module YappHistory {
  import opened Bytes
  import opened YappFrames
  import opened YappSession
  import opened YappLink
  import opened YappSafety

  /** What a station's user offered. */
  function Offers(events: seq<Event>, byA: bool): seq<File> {
    if events == [] then []
    else
      var last := events[|events| - 1];
      Offers(events[..|events| - 1], byA) + (if last.byA == byA && last.action.Offer? then [last.action.file] else [])
  }

  /** xs can be had from ys by leaving some out. */
  predicate DrawnFrom(xs: seq<File>, ys: seq<File>) {
    if xs == [] then true
    else if ys == [] then false
    else
      DrawnFrom(xs, ys[..|ys| - 1])
      || (xs[|xs| - 1] == ys[|ys| - 1] && DrawnFrom(xs[..|xs| - 1], ys[..|ys| - 1]))
  }

  lemma {:induction false} LeaveOut(xs: seq<File>, x: File, ys: seq<File>)
    requires DrawnFrom(xs + [x], ys)
    ensures DrawnFrom(xs, ys)
  {
    assert (xs + [x])[..|xs|] == xs;
    if xs != [] && DrawnFrom(xs + [x], ys[..|ys| - 1]) {
      LeaveOut(xs, x, ys[..|ys| - 1]);
    }
  }

  lemma DrawOne(xs: seq<File>, ys: seq<File>, f: File)
    requires DrawnFrom(xs, ys)
    ensures DrawnFrom(xs, ys + [f]) && DrawnFrom(xs + [f], ys + [f])
  {
    assert (ys + [f])[..|ys|] == ys && (xs + [f])[..|xs|] == xs;
  }

  /** Files reported, and the one under way. */
  function Claimed(s: Session): seq<File> { s.sent + (if IsTx(s) then [s.offered] else []) }

  /** s became t without a new offer. */
  predicate NoNewClaim(s: Session, t: Session) {
    || (t.sent == s.sent && (IsTx(t) ==> IsTx(s) && t.offered == s.offered))
    || (IsTx(s) && !IsTx(t) && t.sent == s.sent + [s.offered])
  }

  lemma PlanClaimsNothing(s: Session, plan: seq<seq<byte>>)
    ensures NoNewClaim(s, BeginPlan(s, plan))
  {
  }

  lemma HandleClaimsNothing(s: Session, f: Frame, paclen: int)
    ensures NoNewClaim(s, Handle(s, f, paclen))
  {
    match f.kind {
      case RR => PlanClaimsNothing(s, Plan(s.xfer.name, s.xfer.total, s.xfer.pendingData, paclen));
      case _ =>
    }
  }

  lemma {:induction false} ReceiveClaimsNothing(s: Session, chunk: seq<byte>, paclen: int)
    ensures NoNewClaim(s, Receive(s, chunk, paclen))
    decreases |chunk|
  {
    if chunk != [] {
      var (q, o) := Step(s.framer, chunk[0]);
      if o.Dispatch? {
        HandleClaimsNothing(s, o.frame, paclen);
      }
      ReceiveClaimsNothing(Receive1(s, chunk[0], paclen), chunk[1..], paclen);
    }
  }

  lemma ClaimKept(s: Session, t: Session, offers: seq<File>)
    requires NoNewClaim(s, t) && DrawnFrom(Claimed(s), offers)
    ensures DrawnFrom(Claimed(t), offers)
  {
    Unit(s.sent);
    if Claimed(t) != Claimed(s) {
      LeaveOut(s.sent, s.offered, offers);
    }
  }

  lemma OwnAction(w: World, act: Action, offers: seq<File>)
    requires DrawnFrom(Claimed(w.a), offers)
    ensures DrawnFrom(Claimed(Act(w, act).a), if act.Offer? then offers + [act.file] else offers)
    ensures Claimed(Act(w, act).b) == Claimed(w.b)
  {
    match act {
      case Offer(file) =>
        DrawOne(Claimed(w.a), offers, file);
        Unit(w.a.sent);
      case Deliver(n, paclen) =>
        var chunk := w.b.out[..if n < |w.b.out| then n else |w.b.out|];
        ReceiveClaimsNothing(w.a, chunk, paclen);
        ClaimKept(w.a, Receive(w.a, chunk, paclen), offers);
      case _ =>
        ClaimKept(w.a, Act(w, act).a, offers);
    }
  }

  /** In every run, whatever happens in it, the files a station reported as sent, and the one it may
      be sending, are among those its user offered, in that order. */
  lemma {:induction false} ReportedWereOffered(events: seq<Event>)
    ensures DrawnFrom(Claimed(Run(events).a), Offers(events, true))
    ensures DrawnFrom(Claimed(Run(events).b), Offers(events, false))
  {
    if events != [] {
      var init, e := events[..|events| - 1], events[|events| - 1];
      ReportedWereOffered(init);
      var w := Run(init);
      Unit(Offers(init, true));
      Unit(Offers(init, false));
      if e.byA {
        OwnAction(w, e.action, Offers(init, true));
      } else {
        OwnAction(Swap(w), e.action, Offers(init, false));
      }
    }
  }
}
