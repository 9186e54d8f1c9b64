/** The packet modem's transmit queue: frames wait for an idle channel, and a newer 15-byte frame
    takes the place of an older one between the same stations. */
module CsmaQueue {
  import opened Bytes

  type Frame = seq<byte>

  datatype Pending = Pending(chan: int, prio: int, frame: Frame)

  /** Destination and source, and one control byte.  Supervisory frames are that long, and so are
      SABM, DISC, UA and DM without digipeaters. */
  const BARE := 15

  const ADDRESS := 14

  predicate IsBare(f: Frame) { |f| == BARE }

  function Address(f: Frame): Frame { if |f| >= ADDRESS then f[..ADDRESS] else f }

  /** A queued frame the new one makes obsolete. */
  predicate Superseded(old_: Frame, new_: Frame) {
    IsBare(new_) && IsBare(old_) && Address(old_) == Address(new_)
  }

  function Kept(queue: seq<Pending>, f: Frame): seq<Pending> {
    if queue == [] then []
    else (if Superseded(queue[0].frame, f) then [] else [queue[0]]) + Kept(queue[1..], f)
  }

  datatype State = State(queue: seq<Pending>, timer: bool, idleSince: int, mode: int, enabled: bool)

  function SlotTime(mode: int): int { if mode == 300 then 250 else 100 }

  function Transmit(s: State, p: Pending): State {
    if !s.enabled || p.frame == [] then s
    else State(Kept(s.queue, p.frame) + [p], true, if s.timer then s.idleSince else 0, s.mode, s.enabled)
  }

  predicate Sends(s: State, busy: bool, now: int) {
    s.timer && s.queue != [] && !busy && s.idleSince != 0 && now - s.idleSince >= SlotTime(s.mode)
  }

  function Tick(s: State, busy: bool, now: int): State {
    if !s.timer then s
    else if s.queue == [] then s.(timer := false)
    else if busy then s.(idleSince := 0)
    else if s.idleSince == 0 then s.(idleSince := now)
    else if now - s.idleSince < SlotTime(s.mode) then s
    else s.(queue := s.queue[1..], idleSince := 0)
  }

  /** The queue when the loop has looked at all places from i on. */
  ghost function Looked(was: seq<Pending>, i: nat, f: Frame): (now: seq<Pending>)
    requires i <= |was|
    ensures |now| >= i
  {
    was[..i] + Kept(was[i..], f)
  }

  lemma LookedEnds(was: seq<Pending>, f: Frame)
    ensures Looked(was, |was|, f) == was && Looked(was, 0, f) == Kept(was, f)
  {
    assert was[|was|..] == [] && was[..|was|] == was && was[0..] == was && was[..0] == [];
    Unit(was);
    Unit(Kept(was, f));
  }

  lemma LookedAt(was: seq<Pending>, i: nat, f: Frame)
    requires i < |was| && IsBare(f)
    ensures var now := Looked(was, i + 1, f);
            now[i] == was[i]
            && Looked(was, i, f) == if Superseded(was[i].frame, f) then now[..i] + now[i + 1..] else now
  {
    var rest := Kept(was[i + 1..], f);
    assert was[i..][1..] == was[i + 1..] && was[..i + 1] == was[..i] + [was[i]];
    Assoc(was[..i], [was[i]], rest);
    assert (was[..i + 1] + rest)[..i] == was[..i] && (was[..i + 1] + rest)[i + 1..] == rest;
  }

  lemma {:induction false} KeepsAll(queue: seq<Pending>, f: Frame)
    requires !IsBare(f)
    ensures Kept(queue, f) == queue
  {
    if queue != [] {
      KeepsAll(queue[1..], f);
    }
  }

  class TxQueue {
    var queue: seq<Pending>
    var timer: bool
    var idleSince: int
    var mode: int
    var enabled: bool

    function Contents(): State
      reads this
    {
      State(queue, timer, idleSince, mode, enabled)
    }

    constructor (mode: int)
      ensures Contents() == State([], false, 0, mode, true)
    {
      this.mode := mode;
      queue, timer, idleSince, enabled := [], false, 0, true;
    }

    /** Takes out what the frame supersedes, from the newest to the oldest. */
    method DropSuperseded(f: Frame)
      requires IsBare(f)
      modifies this`queue
      ensures queue == Kept(old(queue), f)
    {
      ghost var was := queue;
      var i := |queue| - 1;
      LookedEnds(was, f);
      while i >= 0
        invariant -1 <= i < |was| && queue == Looked(was, i + 1, f)
      {
        LookedAt(was, i, f);
        if |queue[i].frame| == BARE && queue[i].frame[..ADDRESS] == f[..ADDRESS] {
          queue := queue[..i] + queue[i + 1..];
        }
        i := i - 1;
      }
    }

    /** transmitFrameBytes. */
    method TransmitFrameBytes(chan: int, prio: int, frame: Frame)
      modifies this
      ensures Contents() == Transmit(old(Contents()), Pending(chan, prio, frame))
    {
      if !enabled {
        return;
      }
      if frame == [] {
        return;
      }
      if |frame| == BARE {
        DropSuperseded(frame);
      } else {
        KeepsAll(queue, frame);
      }
      queue := queue + [Pending(chan, prio, frame)];
      if !timer {
        idleSince := 0;
        timer := true;
      }
    }

    /** txCsmaTick, called while the timer runs; gives the frame that is keyed, if any. */
    method TxCsmaTick(busy: bool, now: int) returns (keyed: seq<Frame>)
      requires timer
      modifies this
      ensures Contents() == Tick(old(Contents()), busy, now)
      ensures keyed == if old(Sends(Contents(), busy, now)) then [old(queue)[0].frame] else []
    {
      keyed := [];
      if queue == [] {
        timer := false;
        return;
      }
      if busy {
        idleSince := 0;
        return;
      }
      if idleSince == 0 {
        idleSince := now;
        return;
      }
      var slotTime := if mode == 300 then 250 else 100;
      if now - idleSince < slotTime {
        return;
      }
      keyed := [queue[0].frame];
      queue := queue[1..];
      idleSince := 0;
    }
  }

  // ---------------------------------------------------------------- runs

  datatype Event =
    | Enqueue(p: Pending)
    | TimerTick(busy: bool, now: int)
    | SetMode(mode: int)
    | Enable(on: bool)

  function Step(s: State, e: Event): State {
    match e
    case Enqueue(p) => Transmit(s, p)
    case TimerTick(busy, now) => Tick(s, busy, now)
    case SetMode(mode) => s.(mode := mode)
    case Enable(on) => s.(enabled := on)
  }

  function Run(s: State, events: seq<Event>): State {
    if events == [] then s else Step(Run(s, events[..|events| - 1]), events[|events| - 1])
  }

  function Frames(queue: seq<Pending>): seq<Frame> {
    if queue == [] then [] else [queue[0].frame] + Frames(queue[1..])
  }

  /** What an event keys, and what it asks for. */
  function KeyedBy(s: State, e: Event): seq<Frame> {
    if e.TimerTick? && Sends(s, e.busy, e.now) then [s.queue[0].frame] else []
  }

  function AskedBy(s: State, e: Event): seq<Frame> {
    if e.Enqueue? && s.enabled && e.p.frame != [] then [e.p.frame] else []
  }

  function Keyed(s: State, events: seq<Event>): seq<Frame> {
    if events == [] then []
    else
      var init := events[..|events| - 1];
      Keyed(s, init) + KeyedBy(Run(s, init), events[|events| - 1])
  }

  function Asked(s: State, events: seq<Event>): seq<Frame> {
    if events == [] then []
    else
      var init := events[..|events| - 1];
      Asked(s, init) + AskedBy(Run(s, init), events[|events| - 1])
  }

  // ---------------------------------------------------------------- one 15-byte frame a pair

  predicate Distinct(queue: seq<Pending>) {
    forall i, j :: 0 <= i < j < |queue| ==> !Superseded(queue[i].frame, queue[j].frame)
  }

  lemma {:induction false} KeptDistinct(queue: seq<Pending>, f: Frame)
    requires Distinct(queue)
    ensures Distinct(Kept(queue, f))
    ensures forall p :: p in Kept(queue, f) <==> p in queue && !Superseded(p.frame, f)
  {
    if queue != [] {
      var rest := queue[1..];
      assert queue == [queue[0]] + rest;
      KeptDistinct(rest, f);
      assert forall p :: p in rest ==> !Superseded(queue[0].frame, p.frame);
    }
  }

  lemma AppendDistinct(queue: seq<Pending>, p: Pending)
    requires Distinct(queue) && forall q :: q in queue ==> !Superseded(q.frame, p.frame)
    ensures Distinct(queue + [p])
  {
  }

  /** No reachable queue holds two 15-byte frames between the same two stations. */
  lemma {:induction false} NeverTwice(s: State, events: seq<Event>)
    requires Distinct(s.queue)
    ensures Distinct(Run(s, events).queue)
  {
    if events != [] {
      var init, e := events[..|events| - 1], events[|events| - 1];
      var now := Run(s, init);
      NeverTwice(s, init);
      if e.Enqueue? {
        KeptDistinct(now.queue, e.p.frame);
        AppendDistinct(Kept(now.queue, e.p.frame), e.p);
      }
    }
  }

  // ---------------------------------------------------------------- nothing else is lost

  /** The frames of any other length than 15 bytes. */
  function Others(frames: seq<Frame>): seq<Frame> {
    if frames == [] then []
    else
      var last := frames[|frames| - 1];
      Others(frames[..|frames| - 1]) + (if IsBare(last) then [] else [last])
  }

  /** The latest 15-byte frame for an address. */
  function Latest(frames: seq<Frame>, address: Frame): Frame {
    if frames == [] then []
    else
      var last := frames[|frames| - 1];
      if IsBare(last) && Address(last) == address then last else Latest(frames[..|frames| - 1], address)
  }

  lemma {:induction false} OthersAppend(a: seq<Frame>, b: seq<Frame>)
    ensures Others(a + b) == Others(a) + Others(b)
  {
    if b == [] {
      Unit(a);
      Unit(Others(a));
    } else {
      assert (a + b)[..|a + b| - 1] == a + b[..|b| - 1];
      OthersAppend(a, b[..|b| - 1]);
    }
  }

  lemma {:induction false} LatestAppend(a: seq<Frame>, b: seq<Frame>, address: Frame)
    ensures Latest(a + b, address) == if Latest(b, address) != [] then Latest(b, address) else Latest(a, address)
  {
    if b == [] {
      Unit(a);
    } else {
      assert (a + b)[..|a + b| - 1] == a + b[..|b| - 1];
      LatestAppend(a, b[..|b| - 1], address);
    }
  }

  lemma OneFrame(f: Frame, address: Frame)
    ensures Others([f]) == if IsBare(f) then [] else [f]
    ensures Latest([f], address) == if IsBare(f) && Address(f) == address then f else []
  {
    assert [f][..0] == [];
  }

  lemma {:induction false} FramesAppend(a: seq<Pending>, p: Pending)
    ensures Frames(a + [p]) == Frames(a) + [p.frame]
  {
    if a == [] {
      assert [p][1..] == [] && a + [p] == [p];
    } else {
      assert (a + [p])[1..] == a[1..] + [p];
      FramesAppend(a[1..], p);
    }
  }

  lemma {:induction false} KeptOthers(queue: seq<Pending>, f: Frame, address: Frame)
    ensures Others(Frames(Kept(queue, f))) == Others(Frames(queue))
    ensures Latest(Frames(Kept(queue, f)), address)
         == if IsBare(f) && Address(f) == address then [] else Latest(Frames(queue), address)
  {
    if queue != [] {
      KeptOthers(queue[1..], f, address);
      var first, rest := queue[0].frame, Frames(queue[1..]);
      OneFrame(first, address);
      OthersAppend([first], rest);
      LatestAppend([first], rest, address);
      var kept := Frames(Kept(queue[1..], f));
      if Superseded(first, f) {
        assert Kept(queue, f) == Kept(queue[1..], f);
      } else {
        assert Kept(queue, f)[1..] == Kept(queue[1..], f);
        OthersAppend([first], kept);
        LatestAppend([first], kept, address);
      }
    }
  }

  lemma EnqueueKeeps(queue: seq<Pending>, p: Pending, address: Frame)
    ensures var before, after := Frames(queue), Frames(Kept(queue, p.frame) + [p]);
            && Others(after) == Others(before) + Others([p.frame])
            && Latest(after, address) == Latest(before + [p.frame], address)
  {
    var kept := Frames(Kept(queue, p.frame));
    KeptOthers(queue, p.frame, address);
    FramesAppend(Kept(queue, p.frame), p);
    OneFrame(p.frame, address);
    OthersAppend(kept, [p.frame]);
    LatestAppend(kept, [p.frame], address);
    LatestAppend(Frames(queue), [p.frame], address);
  }

  lemma TickKeeps(s: State, e: Event)
    requires AskedBy(s, e) == []
    ensures KeyedBy(s, e) + Frames(Step(s, e).queue) == Frames(s.queue)
  {
    Unit(Frames(s.queue));
  }

  /** One event, seen from what has been keyed and what still waits. */
  lemma EventKeeps(s: State, e: Event, address: Frame)
    ensures var before, after := Frames(s.queue), KeyedBy(s, e) + Frames(Step(s, e).queue);
            && Others(after) == Others(before) + Others(AskedBy(s, e))
            && Latest(after, address) == Latest(before + AskedBy(s, e), address)
  {
    Unit(Frames(s.queue));
    Unit(Others(Frames(s.queue)));
    Unit(Frames(Step(s, e).queue));
    if AskedBy(s, e) != [] {
      EnqueueKeeps(s.queue, e.p, address);
    } else {
      TickKeeps(s, e);
    }
  }

  lemma KeepsGoing(keyed: seq<Frame>, queue: seq<Frame>, more: seq<Frame>, next: seq<Frame>,
                   asked: seq<Frame>, extra: seq<Frame>, address: Frame)
    requires Others(keyed + queue) == Others(asked) && Latest(keyed + queue, address) == Latest(asked, address)
    requires Others(more + next) == Others(queue) + Others(extra)
    requires Latest(more + next, address) == Latest(queue + extra, address)
    ensures Others((keyed + more) + next) == Others(asked + extra)
    ensures Latest((keyed + more) + next, address) == Latest(asked + extra, address)
  {
    Assoc(keyed, more, next);
    OthersAppend(keyed, more + next);
    OthersAppend(keyed, queue);
    OthersAppend(asked, extra);
    Assoc(Others(keyed), Others(queue), Others(extra));
    LatestAppend(keyed, more + next, address);
    LatestAppend(keyed, queue, address);
    LatestAppend(queue, extra, address);
    LatestAppend(asked, extra, address);
  }

  /** Over any run, frames that are not 15 bytes long are keyed or still queued, each once and in the
      order asked for; and of the 15-byte frames between two stations the latest asked for is the
      latest keyed or queued. */
  lemma {:induction false} NothingElseLost(s: State, events: seq<Event>, address: Frame)
    requires s.queue == []
    ensures var all := Keyed(s, events) + Frames(Run(s, events).queue);
            Others(all) == Others(Asked(s, events)) && Latest(all, address) == Latest(Asked(s, events), address)
  {
    if events != [] {
      var init, e := events[..|events| - 1], events[|events| - 1];
      var now := Run(s, init);
      NothingElseLost(s, init, address);
      EventKeeps(now, e, address);
      KeepsGoing(Keyed(s, init), Frames(now.queue), KeyedBy(now, e), Frames(Step(now, e).queue),
                 Asked(s, init), AskedBy(now, e), address);
    }
  }

  // ---------------------------------------------------------------- which frames are lost

  /** What becomes of the entry that was at one place of the queue. */
  datatype Fate = Waiting(place: nat) | Sent | Dropped

  predicate Holds(s: State, fate: Fate, p: Pending) {
    fate.Waiting? ==> fate.place < |s.queue| && s.queue[fate.place] == p
  }

  function Next(s: State, e: Event, fate: Fate, p: Pending): Fate
    requires Holds(s, fate, p)
  {
    if !fate.Waiting? then fate
    else if AskedBy(s, e) != [] then
      if Superseded(p.frame, e.p.frame) then Dropped else Waiting(|Kept(s.queue[..fate.place], e.p.frame)|)
    else if KeyedBy(s, e) != [] then (if fate.place == 0 then Sent else Waiting(fate.place - 1))
    else fate
  }

  /** The place of an entry among those a new frame leaves. */
  lemma {:induction false} KeptPlace(queue: seq<Pending>, f: Frame, i: nat)
    requires i < |queue| && !Superseded(queue[i].frame, f)
    ensures var k := |Kept(queue[..i], f)|; k < |Kept(queue, f)| && Kept(queue, f)[k] == queue[i]
  {
    if i == 0 {
      assert queue[..0] == [];
    } else {
      assert queue[..i][0] == queue[0] && queue[..i][1..] == queue[1..][..i - 1];
      KeptPlace(queue[1..], f, i - 1);
    }
  }

  /** Entries that are left keep their order, so no two share a place. */
  lemma {:induction false} KeptGrows(queue: seq<Pending>, f: Frame, i: nat, j: nat)
    requires i < j <= |queue| && !Superseded(queue[i].frame, f)
    ensures |Kept(queue[..i], f)| < |Kept(queue[..j], f)|
  {
    assert queue[..j][..i] == queue[..i];
    KeptPlace(queue[..j], f, i);
  }

  lemma NextHolds(s: State, e: Event, fate: Fate, p: Pending)
    requires Holds(s, fate, p)
    ensures Holds(Step(s, e), Next(s, e, fate, p), p)
    ensures fate.Waiting? && Next(s, e, fate, p) == Sent ==> KeyedBy(s, e) == [p.frame]
  {
    if fate.Waiting? && AskedBy(s, e) != [] && !Superseded(p.frame, e.p.frame) {
      KeptPlace(s.queue, e.p.frame, fate.place);
    }
  }

  /** The fate, over a run, of the entry that is now at place i. */
  function Follow(s: State, events: seq<Event>, i: nat): (fate: Fate)
    requires i < |s.queue|
    ensures Holds(Run(s, events), fate, s.queue[i])
    ensures fate == Sent ==> s.queue[i].frame in Keyed(s, events)
  {
    if events == [] then Waiting(i)
    else
      var init, e := events[..|events| - 1], events[|events| - 1];
      NextHolds(Run(s, init), e, Follow(s, init, i), s.queue[i]);
      Next(Run(s, init), e, Follow(s, init, i), s.queue[i])
  }

  /** Event k asks for a 15-byte frame with the 14-byte address of the one at place i, also 15 bytes
      long, which has not been keyed by then.  The control bytes play no part. */
  predicate Overtakes(s: State, events: seq<Event>, i: nat, k: nat)
    requires i < |s.queue|
  {
    && k < |events| && AskedBy(Run(s, events[..k]), events[k]) != []
    && Superseded(s.queue[i].frame, events[k].p.frame) && Follow(s, events[..k], i) != Sent
  }

  lemma OvertakenBefore(s: State, events: seq<Event>, i: nat, k: nat)
    requires i < |s.queue| && k + 1 < |events|
    ensures Overtakes(s, events, i, k) == Overtakes(s, events[..|events| - 1], i, k)
  {
    assert events[..|events| - 1][..k] == events[..k];
  }

  lemma OvertakenOn(s: State, events: seq<Event>, i: nat)
    requires i < |s.queue| && events != []
    ensures var init := events[..|events| - 1];
            (exists k :: Overtakes(s, events, i, k))
            <==> (exists k :: Overtakes(s, init, i, k)) || Overtakes(s, events, i, |init|)
  {
    var init := events[..|events| - 1];
    forall k | 0 <= k < |init| ensures Overtakes(s, events, i, k) == Overtakes(s, init, i, k) {
      OvertakenBefore(s, events, i, k);
    }
    if k :| Overtakes(s, init, i, k) {
      assert Overtakes(s, events, i, k);
    }
  }

  /** What the last event does to the entry. */
  lemma LostLast(s: State, events: seq<Event>, i: nat)
    requires i < |s.queue| && events != []
    ensures var init := events[..|events| - 1];
            Follow(s, events, i) == Dropped <==> Follow(s, init, i) == Dropped || Overtakes(s, events, i, |init|)
  {
  }

  /** A queued frame is lost exactly when one that supersedes it is asked for before it is keyed. */
  lemma {:induction false} LostIff(s: State, events: seq<Event>, i: nat)
    requires i < |s.queue|
    ensures Follow(s, events, i) == Dropped <==> exists k :: Overtakes(s, events, i, k)
  {
    if events != [] {
      var init := events[..|events| - 1];
      LostIff(s, init, i);
      LostLast(s, events, i);
      OvertakenOn(s, events, i);
    }
  }

  lemma {:induction false} KeptAppend(q: seq<Pending>, r: seq<Pending>, f: Frame)
    ensures Kept(q + r, f) == Kept(q, f) + Kept(r, f)
  {
    if q == [] {
      Unit(r);
    } else {
      assert (q + r)[0] == q[0] && (q + r)[1..] == q[1..] + r;
      KeptAppend(q[1..], r, f);
    }
  }

  lemma {:induction false} KeptTwice(queue: seq<Pending>, f: Frame, g: Frame)
    requires Superseded(f, g)
    ensures Kept(Kept(queue, f), g) == Kept(queue, g)
  {
    if queue != [] {
      KeptTwice(queue[1..], f, g);
      KeptAppend(if Superseded(queue[0].frame, f) then [] else [queue[0]], Kept(queue[1..], f), g);
    }
  }

  /** A frame that another one supersedes before any tick might as well not have been asked for. */
  lemma AsIfNeverAsked(s: State, a: Pending, b: Pending)
    requires Superseded(a.frame, b.frame)
    ensures Transmit(Transmit(s, a), b) == Transmit(s, b)
  {
    KeptTwice(s.queue, a.frame, b.frame);
    KeptAppend(Kept(s.queue, a.frame), [a], b.frame);
  }

  /** The control bytes of two commands, so with the same command bits in the 14 bytes: connect and
      disconnect, both with the poll bit. */
  const SABM: byte := 0x3F

  const DISC: byte := 0x53

  function Bare(address: Frame, control: byte): Frame { address + [control] }

  lemma RunTwo(s: State, a: Pending, b: Pending)
    ensures Run(s, [Enqueue(a), Enqueue(b)]) == Transmit(Transmit(s, a), b) && Keyed(s, [Enqueue(a), Enqueue(b)]) == []
  {
    var events := [Enqueue(a), Enqueue(b)];
    assert events[..1] == [Enqueue(a)] && [Enqueue(a)][..0] == [];
    assert Run(s, [Enqueue(a)]) == Transmit(s, a) && Keyed(s, [Enqueue(a)]) == [];
  }

  lemma FollowOne(s: State, b: Pending)
    requires s.queue != [] && s.enabled && Superseded(s.queue[0].frame, b.frame)
    ensures Follow(s, [Enqueue(b)], 0) == Dropped
  {
    assert [Enqueue(b)][..0] == [];
  }

  /** So a SABM that waits for the channel is never sent when the user gives the connection up: the DISC
      takes its place. */
  lemma ConnectLost(s: State, address: Frame, chan: int, prio: int)
    requires s.queue == [] && s.enabled && |address| == ADDRESS
    ensures var sabm, disc := Pending(chan, prio, Bare(address, SABM)), Pending(chan, prio, Bare(address, DISC));
            var events := [Enqueue(sabm), Enqueue(disc)];
            && Run(s, events).queue == [disc] && Keyed(s, events) == []
            && Follow(Transmit(s, sabm), [Enqueue(disc)], 0) == Dropped
  {
    var sabm, disc := Pending(chan, prio, Bare(address, SABM)), Pending(chan, prio, Bare(address, DISC));
    assert Address(sabm.frame) == Address(disc.frame) == address;
    AsIfNeverAsked(s, sabm, disc);
    RunTwo(s, sabm, disc);
    FollowOne(Transmit(s, sabm), disc);
  }

  // ---------------------------------------------------------------- the channel was idle

  /** Since tick j, at time t, no tick has found the channel busy and nothing has been keyed. */
  predicate IdleFrom(s: State, events: seq<Event>, j: nat, t: int) {
    && j < |events| && events[j].TimerTick? && events[j].now == t
    && forall i :: j <= i < |events| && events[i].TimerTick? ==>
         !events[i].busy && !Sends(Run(s, events[..i]), events[i].busy, events[i].now)
  }

  /** No idle stretch is timed while nothing waits, and the timer runs while something does. */
  predicate Steady(s: State) { (s.queue == [] ==> s.idleSince == 0) && (!s.timer ==> s.queue == []) }

  lemma {:induction false} StaysSteady(s: State, events: seq<Event>)
    requires Steady(s)
    ensures Steady(Run(s, events))
  {
    if events != [] {
      StaysSteady(s, events[..|events| - 1]);
    }
  }

  lemma {:induction false} IdleWindow(s: State, events: seq<Event>) returns (j: nat)
    requires Steady(s) && s.idleSince == 0
    ensures Run(s, events).idleSince != 0 ==> IdleFrom(s, events, j, Run(s, events).idleSince)
  {
    j := 0;
    if events != [] {
      var init, e := events[..|events| - 1], events[|events| - 1];
      j := IdleWindow(s, init);
      StaysSteady(s, init);
      var now, next := Run(s, init), Run(s, events);
      if next.idleSince != 0 {
        if now.idleSince == 0 {
          j := |events| - 1;
        } else {
          assert next.idleSince == now.idleSince;
        }
        assert forall i :: 0 <= i < |init| ==> init[..i] == events[..i];
      }
    }
  }

  /** A frame is keyed only after a stretch of ticks that all found the channel idle, with nothing
      keyed in it, that began at least a slot time ago: 250 ms at 300 baud, else 100. */
  lemma KeyedOnlyWhenIdle(s: State, events: seq<Event>, busy: bool, now: int) returns (j: nat)
    requires Steady(s) && s.idleSince == 0 && KeyedBy(Run(s, events), TimerTick(busy, now)) != []
    ensures !busy && IdleFrom(s, events, j, Run(s, events).idleSince)
    ensures now - events[j].now >= if Run(s, events).mode == 300 then 250 else 100
  {
    j := IdleWindow(s, events);
  }

  lemma KeyedNone(s: State, events: seq<Event>)
    requires events != [] && Keyed(s, events) == []
    ensures var last := |events| - 1;
            Keyed(s, events[..last]) == [] && KeyedBy(Run(s, events[..last]), events[last]) == []
  {
    var init := events[..|events| - 1];
    assert |Keyed(s, events)| == |Keyed(s, init)| + |KeyedBy(Run(s, init), events[|events| - 1])|;
  }

  /** While the channel stays idle and nothing is keyed, the stretch goes on from its first tick. */
  lemma {:induction false} StretchGoesOn(s: State, events: seq<Event>, start: int)
    requires s.timer && s.queue != [] && s.idleSince <= start && start > 0
    requires events != [] && events[0] == TimerTick(false, start) && Keyed(s, events) == []
    requires forall i :: 0 <= i < |events| && events[i].TimerTick? ==> !events[i].busy
    ensures var now := Run(s, events); now.timer && now.queue != [] && now.idleSince != 0 && now.idleSince <= start
  {
    var init, e := events[..|events| - 1], events[|events| - 1];
    KeyedNone(s, events);
    if init == [] {
      assert Run(s, init) == s;
    } else {
      StretchGoesOn(s, init, start);
    }
  }

  /** A waiting frame is keyed once ticks that all found the channel idle span a slot time: 250 ms at
      300 baud, else 100, whatever else is enqueued meanwhile. */
  lemma KeyedOnceIdle(s: State, events: seq<Event>, start: int, now: int)
    requires s.timer && s.queue != [] && s.idleSince <= start && start > 0
    requires events != [] && events[0] == TimerTick(false, start)
    requires forall i :: 0 <= i < |events| && events[i].TimerTick? ==> !events[i].busy
    requires now - start >= if Run(s, events).mode == 300 then 250 else 100
    ensures Keyed(s, events + [TimerTick(false, now)]) != []
  {
    var all := events + [TimerTick(false, now)];
    assert all[..|all| - 1] == events;
    if Keyed(s, events) == [] {
      StretchGoesOn(s, events, start);
    }
  }

  /** After a tick the timer runs on exactly when something was waiting for it. */
  lemma TimerRunsIff(s: State, events: seq<Event>, busy: bool, now: int)
    requires Steady(s)
    ensures var was := Run(s, events);
            Step(was, TimerTick(busy, now)).timer <==> was.queue != []
  {
    StaysSteady(s, events);
  }
}
