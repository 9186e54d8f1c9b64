/** The life of a reporter: connecting, queueing spots, sending them in batches. */
module SpotReporter {
  import opened Bytes
  import opened Ipfix
  import opened Options
  import opened PskReporter

  type Text = seq<byte>

  datatype Status = Disconnected | Connecting | Connected | Error

  datatype Reporter = Reporter(callsign: Text, grid: Text, mode: Text, freq: nat, sequence: nat, lastTemplate: int,
                               pending: seq<Spot>, status: Status, resolved: bool)

  /** What does not change; clean is QString's toUpper().trimmed(). */
  datatype Config = Config(software: Text, domain: nat, clean: Text -> Text)

  const TEMPLATE_REFRESH_SECS := 3600

  function Start(): Reporter { Reporter([], [], [], 0, 0, 0, [], Disconnected, false) }

  function Bounded(snr: int): int { if snr < -128 then -128 else if snr > 127 then 127 else snr }

  /** updateRxSpotWithGrid: what it queues. */
  function Queued(cfg: Config, r: Reporter, callsign: Text, grid: Text, mode: Text, snr: int, now: int): seq<Spot> {
    if (r.status != Connected && r.status != Connecting) || callsign == [] || r.freq == 0 then []
    else [Spot(cfg.clean(callsign), cfg.clean(grid), if mode == [] then r.mode else mode, Bounded(snr), r.freq, now)]
  }

  predicate TemplatesDue(r: Reporter, now: int) {
    r.lastTemplate == 0 || now - r.lastTemplate >= TEMPLATE_REFRESH_SECS
  }

  function DraftOf(cfg: Config, r: Reporter, now: int): Draft {
    Draft(Station(r.callsign, r.grid, cfg.software), r.pending, TemplatesDue(r, now), now, r.sequence, cfg.domain)
  }

  /** sendPacket; written says whether the datagram could be written. */
  function Sent(r: Reporter, now: int, written: bool): Reporter {
    if !r.resolved || !written then r
    else r.(sequence := (r.sequence + |r.pending| + 1) % 0x1_0000_0000,
            lastTemplate := if TemplatesDue(r, now) then now else r.lastTemplate,
            pending := [])
  }

  datatype Event =
    | SetStation(callsign: Text, grid: Text)
    | Connect
    | Lookup(ok: bool)
    | Frequency(hz: nat)
    | Tx(mode: Text)
    | RxSpot(callsign: Text, grid: Text, mode: Text, snr: int, at: int)
    | Flush(now: int, written: bool)
    | Disconnect(now: int, written: bool)

  predicate Due(r: Reporter) { r.resolved && r.pending != [] }

  function Step(cfg: Config, r: Reporter, e: Event): Reporter {
    match e
    case SetStation(callsign, grid) => r.(callsign := cfg.clean(callsign), grid := cfg.clean(grid))
    case Connect =>
      if r.callsign == [] || r.grid == [] || r.status == Connected || r.status == Connecting then r
      else r.(status := Connecting)
    case Lookup(ok) => if ok then r.(resolved := true, status := Connected) else r.(status := Error)
    case Frequency(hz) => r.(freq := hz)
    case Tx(mode) => if mode == [] then r else r.(mode := mode)
    case RxSpot(callsign, grid, mode, snr, at) =>
      r.(pending := r.pending + Queued(cfg, r, callsign, grid, mode, snr, at))
    case Flush(now, written) => if Due(r) then Sent(r, now, written) else r
    case Disconnect(now, written) =>
      if r.status == Disconnected then r
      else (if Due(r) then Sent(r, now, written) else r).(pending := [], status := Disconnected)
  }

  function Run(cfg: Config, r: Reporter, events: seq<Event>): Reporter {
    if events == [] then r else Step(cfg, Run(cfg, r, events[..|events| - 1]), events[|events| - 1])
  }

  // ---------------------------------------------------------------- the object

  class UdpReporter {
    var callsign: Text
    var grid: Text
    var mode: Text
    var freq: nat
    var sequence: nat
    var lastTemplate: int
    var pending: seq<Spot>
    var status: Status
    var resolved: bool
    const cfg: Config

    function Contents(): Reporter
      reads this
    {
      Reporter(callsign, grid, mode, freq, sequence, lastTemplate, pending, status, resolved)
    }

    constructor (cfg: Config)
      ensures Contents() == Start() && this.cfg == cfg
    {
      this.cfg := cfg;
      callsign, grid, mode, freq, sequence, lastTemplate, pending := [], [], [], 0, 0, 0, [];
      status, resolved := Disconnected, false;
    }

    method ConnectToService()
      modifies this`status
      ensures Contents() == Step(cfg, old(Contents()), Connect)
    {
      if callsign == [] || grid == [] {
        return;
      }
      if status == Connected || status == Connecting {
        return;
      }
      status := Connecting;
    }

    method OnLookupFinished(ok: bool)
      modifies this`status, this`resolved
      ensures Contents() == Step(cfg, old(Contents()), Lookup(ok))
    {
      if !ok {
        status := Error;
        return;
      }
      resolved := true;
      status := Connected;
    }

    method UpdateRxSpotWithGrid(call: Text, locator: Text, digital: Text, snr: int, now: int)
      modifies this`pending
      ensures Contents() == Step(cfg, old(Contents()), RxSpot(call, locator, digital, snr, now))
    {
      if status != Connected && status != Connecting {
        return;
      }
      if call == [] || freq == 0 {
        return;
      }
      var s := Spot(cfg.clean(call), cfg.clean(locator), if digital == [] then mode else digital,
                    Bounded(snr), freq, now);
      pending := pending + [s];
    }

    /** Gives the datagram that is handed to the socket, if any. */
    method SendPacket(now: int, written: bool) returns (datagram: Option<seq<byte>>)
      modifies this`sequence, this`lastTemplate, this`pending
      ensures Contents() == Sent(old(Contents()), now, written)
      ensures datagram == if resolved then Some(Packet(DraftOf(cfg, old(Contents()), now))) else None
    {
      datagram := None;
      if !resolved {
        return;
      }
      var sendTemplates := lastTemplate == 0 || now - lastTemplate >= TEMPLATE_REFRESH_SECS;
      var station := Station(callsign, grid, cfg.software);
      var packet := BuildPacket(Draft(station, pending, sendTemplates, now, sequence, cfg.domain));
      datagram := Some(packet);
      if !written {
        return;
      }
      sequence := (sequence + |pending| + 1) % 0x1_0000_0000;
      if sendTemplates {
        lastTemplate := now;
      }
      pending := [];
    }

    /** onSendTimer and flush. */
    method OnSendTimer(now: int, written: bool) returns (datagram: Option<seq<byte>>)
      modifies this`sequence, this`lastTemplate, this`pending
      ensures Contents() == Step(cfg, old(Contents()), Flush(now, written))
      ensures datagram == if old(Due(Contents())) then Some(Packet(DraftOf(cfg, old(Contents()), now))) else None
    {
      datagram := None;
      if !resolved || pending == [] {
        return;
      }
      datagram := SendPacket(now, written);
    }

    method DisconnectFromService(now: int, written: bool) returns (datagram: Option<seq<byte>>)
      modifies this`sequence, this`lastTemplate, this`pending, this`status
      ensures Contents() == Step(cfg, old(Contents()), Disconnect(now, written))
      ensures datagram == if old(status != Disconnected && Due(Contents()))
                          then Some(Packet(DraftOf(cfg, old(Contents()), now))) else None
    {
      datagram := None;
      if status == Disconnected {
        return;
      }
      if resolved && pending != [] {
        datagram := SendPacket(now, written);
      }
      pending := [];
      status := Disconnected;
    }
  }

  // ---------------------------------------------------------------- what becomes of the spots

  /** Spots that left the queue together: in a datagram that was written, or dropped. */
  datatype Batch = Batch(draft: Draft, written: bool)

  function Leaves(cfg: Config, r: Reporter, e: Event): seq<Batch> {
    match e
    case Flush(now, written) => if Due(r) && written then [Batch(DraftOf(cfg, r, now), true)] else []
    case Disconnect(now, written) =>
      if r.status == Disconnected || r.pending == [] then []
      else [Batch(DraftOf(cfg, r, now), r.resolved && written)]
    case _ => []
  }

  function Ledger(cfg: Config, r: Reporter, events: seq<Event>): seq<Batch> {
    if events == [] then []
    else
      var init := events[..|events| - 1];
      Ledger(cfg, r, init) + Leaves(cfg, Run(cfg, r, init), events[|events| - 1])
  }

  function Enters(cfg: Config, r: Reporter, e: Event): seq<Spot> {
    match e
    case RxSpot(callsign, grid, mode, snr, at) => Queued(cfg, r, callsign, grid, mode, snr, at)
    case _ => []
  }

  function Entered(cfg: Config, r: Reporter, events: seq<Event>): seq<Spot> {
    if events == [] then []
    else
      var init := events[..|events| - 1];
      Entered(cfg, r, init) + Enters(cfg, Run(cfg, r, init), events[|events| - 1])
  }

  function Spots(ledger: seq<Batch>): seq<Spot> {
    if ledger == [] then [] else Spots(ledger[..|ledger| - 1]) + ledger[|ledger| - 1].draft.spots
  }

  /** Data records in the datagrams written. */
  function Records(ledger: seq<Batch>): nat {
    if ledger == [] then 0
    else
      Records(ledger[..|ledger| - 1])
      + (if ledger[|ledger| - 1].written then |ledger[|ledger| - 1].draft.spots| + 1 else 0)
  }

  lemma LedgerSnoc(ledger: seq<Batch>, b: Batch)
    ensures Spots(ledger + [b]) == Spots(ledger) + b.draft.spots
    ensures Records(ledger + [b]) == Records(ledger) + (if b.written then |b.draft.spots| + 1 else 0)
  {
    assert (ledger + [b])[..|ledger|] == ledger;
  }

  /** What leaves and what stays is what was there and what came. */
  predicate Balanced(leaves: seq<Batch>, stays: seq<Spot>, was: seq<Spot>, comes: seq<Spot>) {
    if leaves == [] then stays == was + comes
    else |leaves| == 1 && leaves[0].draft.spots == was && stays == [] && comes == []
  }

  lemma StepBalanced(cfg: Config, r: Reporter, e: Event)
    ensures Balanced(Leaves(cfg, r, e), Step(cfg, r, e).pending, r.pending, Enters(cfg, r, e))
  {
    Unit(r.pending);
  }

  lemma BalanceOn(ledger: seq<Batch>, leaves: seq<Batch>, stays: seq<Spot>, was: seq<Spot>, comes: seq<Spot>)
    requires Balanced(leaves, stays, was, comes)
    ensures Spots(ledger + leaves) + stays == Spots(ledger) + was + comes
  {
    if leaves == [] {
      Unit(ledger);
      Assoc(Spots(ledger), was, comes);
    } else {
      assert leaves == [leaves[0]];
      LedgerSnoc(ledger, leaves[0]);
      Unit(Spots(ledger) + was);
    }
  }

  /** Every spot queued is, in order and once, in a batch that was written, in one that was dropped,
      or still waiting. */
  lemma {:induction false} EverySpotAccountedFor(cfg: Config, r: Reporter, events: seq<Event>)
    ensures Spots(Ledger(cfg, r, events)) + Run(cfg, r, events).pending == r.pending + Entered(cfg, r, events)
  {
    if events == [] {
      Unit(r.pending);
    } else {
      var init, e := events[..|events| - 1], events[|events| - 1];
      var now := Run(cfg, r, init);
      EverySpotAccountedFor(cfg, r, init);
      StepBalanced(cfg, now, e);
      BalanceOn(Ledger(cfg, r, init), Leaves(cfg, now, e), Step(cfg, now, e).pending, now.pending, Enters(cfg, now, e));
      Assoc(r.pending, Entered(cfg, r, init), Enters(cfg, now, e));
    }
  }

  /** Nothing is dropped but at a disconnect, and then only what could not be written. */
  lemma OnlyDisconnectDrops(cfg: Config, r: Reporter, e: Event)
    ensures (exists k :: 0 <= k < |Leaves(cfg, r, e)| && !Leaves(cfg, r, e)[k].written)
       <==> e.Disconnect? && r.status != Disconnected && r.pending != [] && !(r.resolved && e.written)
  {
    if e.Disconnect? && r.status != Disconnected && r.pending != [] {
      assert Leaves(cfg, r, e)[0].written == (r.resolved && e.written);
    }
  }

  // ---------------------------------------------------------------- sequence numbers

  /** A quint32. */
  function Wrap32(x: nat): nat { x % 0x1_0000_0000 }

  /** Each batch carries the number of records written before it, counted on from first. */
  predicate Numbered(wrap: nat -> nat, ledger: seq<Batch>, first: nat) {
    ledger == [] ||
    (var init := ledger[..|ledger| - 1];
     Numbered(wrap, init, first) && ledger[|ledger| - 1].draft.sequence == wrap(first + Records(init)))
  }

  /** What one step does to the number, and to the batch that leaves. */
  predicate Counted(wrap: nat -> nat, leaves: seq<Batch>, now: nat, next: nat) {
    if leaves == [] then next == now
    else
      && |leaves| == 1 && leaves[0].draft.sequence == now
      && next == if leaves[0].written then wrap(now + (|leaves[0].draft.spots| + 1)) else now
  }

  lemma StepCounted(cfg: Config, r: Reporter, e: Event)
    ensures Counted(Wrap32, Leaves(cfg, r, e), r.sequence, Step(cfg, r, e).sequence)
  {
  }

  lemma WrapAdd(a: nat, b: nat)
    ensures Wrap32(Wrap32(a) + b) == Wrap32(a + b)
  {
  }

  /** Every batch of a ledger is numbered right, and number is the next one's. */
  predicate Tallied(wrap: nat -> nat, ledger: seq<Batch>, first: nat, number: nat) {
    Numbered(wrap, ledger, first) && number == wrap(first + Records(ledger))
  }

  lemma NumbersOn(wrap: nat -> nat, ledger: seq<Batch>, b: Batch, first: nat)
    requires Numbered(wrap, ledger, first) && b.draft.sequence == wrap(first + Records(ledger))
    ensures Numbered(wrap, ledger + [b], first)
  {
    assert (ledger + [b])[..|ledger|] == ledger;
  }

  lemma CountOn(wrap: nat -> nat, ledger: seq<Batch>, leaves: seq<Batch>, first: nat, now: nat, next: nat, n: nat)
    requires Tallied(wrap, ledger, first, now) && Counted(wrap, leaves, now, next)
    requires leaves != [] ==> n == |leaves[0].draft.spots| + 1
    requires wrap(now + n) == wrap(first + Records(ledger) + n)
    ensures Tallied(wrap, ledger + leaves, first, next)
  {
    if leaves == [] {
      Unit(ledger);
    } else {
      var b := leaves[0];
      assert leaves == [b];
      LedgerSnoc(ledger, b);
      NumbersOn(wrap, ledger, b, first);
      var records := Records(ledger + [b]);
      if b.written {
        assert first + Records(ledger) + n == first + records;
      }
    }
  }

  lemma CountOn32(ledger: seq<Batch>, leaves: seq<Batch>, first: nat, now: nat, next: nat)
    requires Tallied(Wrap32, ledger, first, now) && Counted(Wrap32, leaves, now, next)
    ensures Tallied(Wrap32, ledger + leaves, first, next)
  {
    var n := if leaves != [] then |leaves[0].draft.spots| + 1 else 0;
    WrapAdd(first + Records(ledger), n);
    CountOn(Wrap32, ledger, leaves, first, now, next, n);
  }

  lemma TallyStarts(first: nat)
    requires first < 0x1_0000_0000
    ensures Tallied(Wrap32, [], first, first)
  {
  }

  lemma RunUnfolds(cfg: Config, r: Reporter, events: seq<Event>)
    requires events != []
    ensures var init, e := events[..|events| - 1], events[|events| - 1];
            && Run(cfg, r, events) == Step(cfg, Run(cfg, r, init), e)
            && Ledger(cfg, r, events) == Ledger(cfg, r, init) + Leaves(cfg, Run(cfg, r, init), e)
  {
  }

  /** The sequence number of a datagram counts, modulo 2^32, the data records of all datagrams
      written before it (section 3.1 of RFC 5101). */
  lemma {:induction false} SequenceCountsRecords(cfg: Config, r: Reporter, events: seq<Event>)
    requires r.sequence < 0x1_0000_0000
    ensures Tallied(Wrap32, Ledger(cfg, r, events), r.sequence, Run(cfg, r, events).sequence)
  {
    if events == [] {
      TallyStarts(r.sequence);
    } else {
      var init, e := events[..|events| - 1], events[|events| - 1];
      SequenceCountsRecords(cfg, r, init);
      var now, next := Run(cfg, r, init), Run(cfg, r, events);
      RunUnfolds(cfg, r, events);
      StepCounted(cfg, now, e);
      CountOn32(Ledger(cfg, r, init), Leaves(cfg, now, e), r.sequence, now.sequence, next.sequence);
    }
  }

  // ---------------------------------------------------------------- the collector

  /** The templates a collector knows that was sent every datagram written so far: it learns from
      those it can read. */
  function Learned(ledger: seq<Batch>): map<nat, Template> {
    if ledger == [] then map[]
    else
      var b := ledger[|ledger| - 1];
      var before := Learned(ledger[..|ledger| - 1]);
      if !b.written then before
      else
        match ReadMessage(before, Packet(b.draft))
        case None => before
        case Some(m) => m.content.known
  }

  /** UDP writes no datagram of 65536 bytes or more: a length field of sixteen bits (RFC 768). */
  predicate WritesFit(ledger: seq<Batch>) {
    forall k :: 0 <= k < |ledger| && ledger[k].written ==> |Packet(ledger[k].draft)| < 0x1_0000
  }

  /** Batch k is readable when its turn comes, and reads as what was put in. */
  predicate ReadableAt(ledger: seq<Batch>, k: nat)
    requires k < |ledger| && ledger[k].draft.now >= 0
  {
    var d := ledger[k].draft;
    ReadMessage(Learned(ledger[..k]), Packet(d))
    == Some(Message(d.now % 0x1_0000_0000, d.sequence % 0x1_0000_0000, d.domain % 0x1_0000_0000,
                    Content(Learned(ledger[..k + 1]), Reports(d.station, d.spots))))
  }

  /** Each datagram written is. */
  predicate Readable(ledger: seq<Batch>) {
    forall k :: 0 <= k < |ledger| && ledger[k].written ==> ledger[k].draft.now >= 0 && ReadableAt(ledger, k)
  }

  lemma LearnedSnoc(ledger: seq<Batch>, b: Batch)
    requires b.written ==> |Packet(b.draft)| < 0x1_0000 && b.draft.now >= 0
    requires b.written ==> b.draft.withTemplates || Knows(Learned(ledger))
    ensures Learned(ledger + [b])
         == if b.written then Known(Learned(ledger), b.draft.withTemplates) else Learned(ledger)
  {
    assert (ledger + [b])[..|ledger|] == ledger;
    if b.written {
      PacketReads(b.draft, Learned(ledger));
    }
  }

  lemma ReadableSnoc(ledger: seq<Batch>, b: Batch)
    requires Readable(ledger) && WritesFit(ledger + [b]) && b.draft.now >= 0
    requires b.draft.withTemplates || Knows(Learned(ledger))
    ensures Readable(ledger + [b])
  {
    var next := ledger + [b];
    assert next[|ledger|] == b;
    forall k | 0 <= k < |next| && next[k].written ensures next[k].draft.now >= 0 && ReadableAt(next, k) {
      if k < |ledger| {
        assert next[..k] == ledger[..k] && next[..k + 1] == ledger[..k + 1] && next[k] == ledger[k];
      } else {
        assert next[..k] == ledger && next[..k + 1] == next;
        LearnedSnoc(ledger, b);
        PacketReads(b.draft, Learned(ledger));
      }
    }
  }

  /** Clocks that do not run before 1970. */
  predicate Dated(e: Event) { (e.Flush? || e.Disconnect?) ==> e.now >= 0 }

  /** What a step leaves for the collector: nothing, or one batch that has its templates with it or
      comes after they were sent. */
  predicate Timely(leaves: seq<Batch>, last: int, next: int) {
    if leaves == [] then next == last
    else
      && |leaves| == 1 && leaves[0].draft.now >= 0 && (leaves[0].draft.withTemplates || last != 0)
      && (!leaves[0].written ==> next == last)
  }

  lemma StepTimely(cfg: Config, r: Reporter, e: Event)
    requires Dated(e)
    ensures Timely(Leaves(cfg, r, e), r.lastTemplate, Step(cfg, r, e).lastTemplate)
  {
  }

  /** The collector is up to date. */
  predicate Keeps(ledger: seq<Batch>, last: int) { Readable(ledger) && (last != 0 ==> Knows(Learned(ledger))) }

  lemma KeepsOn(ledger: seq<Batch>, leaves: seq<Batch>, last: int, next: int)
    requires Keeps(ledger, last) && Timely(leaves, last, next) && WritesFit(ledger + leaves)
    ensures Keeps(ledger + leaves, next)
  {
    if leaves == [] {
      Unit(ledger);
    } else {
      var b := leaves[0];
      assert leaves == [b] && (ledger + [b])[|ledger|] == b;
      ReadableSnoc(ledger, b);
      LearnedSnoc(ledger, b);
    }
  }

  lemma LedgerGrows(cfg: Config, r: Reporter, events: seq<Event>)
    requires events != [] && WritesFit(Ledger(cfg, r, events))
    ensures WritesFit(Ledger(cfg, r, events[..|events| - 1]))
  {
    var ledger, next := Ledger(cfg, r, events[..|events| - 1]), Ledger(cfg, r, events);
    assert forall k :: 0 <= k < |ledger| ==> next[k] == ledger[k];
  }

  /** A collector that starts out knowing nothing, gets every datagram that was written and learns from
      those it can read, can read each of them when it comes, whatever failed or was dropped in
      between: the templates are always there in time. */
  lemma {:induction false} CollectorReadsAll(cfg: Config, r: Reporter, events: seq<Event>)
    requires r.lastTemplate == 0 && forall i :: 0 <= i < |events| ==> Dated(events[i])
    requires WritesFit(Ledger(cfg, r, events))
    ensures Readable(Ledger(cfg, r, events))
    ensures Keeps(Ledger(cfg, r, events), Run(cfg, r, events).lastTemplate)
  {
    if events != [] {
      var init, e := events[..|events| - 1], events[|events| - 1];
      var now := Run(cfg, r, init);
      LedgerGrows(cfg, r, events);
      CollectorReadsAll(cfg, r, init);
      assert Dated(e);
      StepTimely(cfg, now, e);
      KeepsOn(Ledger(cfg, r, init), Leaves(cfg, now, e), now.lastTemplate, Run(cfg, r, events).lastTemplate);
    }
  }
}
