/** What a run of the reporter comes to, read off its events alone: which receptions become spots, what
    each spot says, what the station is called, and what a collector reads in the end. */
module SpotEvents {
  import opened Arithmetic
  import opened Bytes
  import opened Ipfix
  import opened Options
  import opened PskReporter
  import opened SpotReporter

  // ---------------------------------------------------------------- what the events say

  /** The frequency last told; 0 before the first. */
  function FrequencyAt(events: seq<Event>): nat {
    if events == [] then 0
    else
      var last := events[|events| - 1];
      if last.Frequency? then last.hz else FrequencyAt(events[..|events| - 1])
  }

  /** The last mode told with a transmission. */
  function ModeAt(events: seq<Event>): Text {
    if events == [] then []
    else
      var last := events[|events| - 1];
      if last.Tx? && last.mode != [] then last.mode else ModeAt(events[..|events| - 1])
  }

  /** The callsign and locator last set, as cleaned. */
  function NameAt(cfg: Config, events: seq<Event>): (Text, Text) {
    if events == [] then ([], [])
    else
      var last := events[|events| - 1];
      if last.SetStation? then (cfg.clean(last.callsign), cfg.clean(last.grid)) else NameAt(cfg, events[..|events| - 1])
  }

  /** Connecting or connected: the last event that mattered was a connect by a named station or a
      lookup that found the server. */
  predicate ListeningAt(cfg: Config, events: seq<Event>) {
    events != [] &&
    var init, last := events[..|events| - 1], events[|events| - 1];
    match last
    case Connect => (NameAt(cfg, init).0 != [] && NameAt(cfg, init).1 != []) || ListeningAt(cfg, init)
    case Lookup(ok) => ok
    case Disconnect(_, _) => false
    case _ => ListeningAt(cfg, init)
  }

  /** The server's address was found at some time. */
  predicate ResolvedAt(events: seq<Event>) { exists i :: 0 <= i < |events| && events[i] == Lookup(true) }

  /** s is the spot of reception e after these events. */
  predicate IsSpotOf(s: Spot, cfg: Config, events: seq<Event>, e: Event) {
    && e.RxSpot? && s.callsign == cfg.clean(e.callsign) && s.grid == cfg.clean(e.grid)
    && s.mode == (if e.mode == [] then ModeAt(events) else e.mode)
    && -128 <= s.snr <= 127 && (e.snr < -128 ==> s.snr == -128) && (e.snr > 127 ==> s.snr == 127)
    && (-128 <= e.snr <= 127 ==> s.snr == e.snr)
    && s.freq == FrequencyAt(events) && s.time == e.at
  }

  /** A reception that becomes a spot. */
  predicate Heeded(cfg: Config, events: seq<Event>, e: Event) {
    e.RxSpot? && ListeningAt(cfg, events) && FrequencyAt(events) != 0 && e.callsign != []
  }

  /** spots are, in order, one for each reception that becomes one. */
  predicate AreSpotsOf(spots: seq<Spot>, cfg: Config, events: seq<Event>) {
    if events == [] then spots == []
    else
      var init, last := events[..|events| - 1], events[|events| - 1];
      if Heeded(cfg, init, last) then
        |spots| > 0 && IsSpotOf(spots[|spots| - 1], cfg, init, last) && AreSpotsOf(spots[..|spots| - 1], cfg, init)
      else AreSpotsOf(spots, cfg, init)
  }

  // ---------------------------------------------------------------- the reporter keeps to that

  predicate Follows(cfg: Config, r: Reporter, events: seq<Event>) {
    && r.freq == FrequencyAt(events) && r.mode == ModeAt(events) && (r.callsign, r.grid) == NameAt(cfg, events)
    && (r.status in {Connecting, Connected} <==> ListeningAt(cfg, events))
  }

  lemma {:induction false} RunFollows(cfg: Config, events: seq<Event>)
    ensures Follows(cfg, Run(cfg, Start(), events), events)
  {
    if events != [] {
      RunFollows(cfg, events[..|events| - 1]);
    }
  }

  lemma {:induction false} RunResolves(cfg: Config, events: seq<Event>)
    ensures Run(cfg, Start(), events).resolved <==> ResolvedAt(events)
  {
    if events != [] {
      var init, last := events[..|events| - 1], events[|events| - 1];
      RunResolves(cfg, init);
      if i :| 0 <= i < |init| && init[i] == Lookup(true) {
        assert events[i] == Lookup(true);
      }
      assert ResolvedAt(events) <==> ResolvedAt(init) || last == Lookup(true) by {
        if i :| 0 <= i < |events| && events[i] == Lookup(true) {
          assert i < |init| ==> init[i] == Lookup(true);
        }
        assert events[|init|] == last;
      }
    }
  }

  /** A reception is let in exactly when it comes while connecting or connected, on a frequency and with
      a callsign, and becomes this spot. */
  lemma LetInIff(cfg: Config, events: seq<Event>, e: Event)
    ensures var spots := Enters(cfg, Run(cfg, Start(), events), e);
            && (spots != [] <==> Heeded(cfg, events, e)) && |spots| <= 1
            && (spots != [] ==> IsSpotOf(spots[0], cfg, events, e))
  {
    RunFollows(cfg, events);
  }

  lemma SpotsGoOn(spots: seq<Spot>, more: seq<Spot>, cfg: Config, events: seq<Event>)
    requires events != []
    requires var init, last := events[..|events| - 1], events[|events| - 1];
             && AreSpotsOf(spots, cfg, init) && (more != [] <==> Heeded(cfg, init, last)) && |more| <= 1
             && (more != [] ==> IsSpotOf(more[0], cfg, init, last))
    ensures AreSpotsOf(spots + more, cfg, events)
  {
    if more == [] {
      Unit(spots);
    } else {
      assert (spots + more)[..|spots + more| - 1] == spots && (spots + more)[|spots + more| - 1] == more[0];
    }
  }

  lemma {:induction false} EnteredAreSpots(cfg: Config, events: seq<Event>)
    ensures AreSpotsOf(Entered(cfg, Start(), events), cfg, events)
  {
    if events != [] {
      var init, last := events[..|events| - 1], events[|events| - 1];
      EnteredAreSpots(cfg, init);
      LetInIff(cfg, init, last);
      SpotsGoOn(Entered(cfg, Start(), init), Enters(cfg, Run(cfg, Start(), init), last), cfg, events);
    }
  }

  // ---------------------------------------------------------------- what the collector reads

  /** A spot as a datagram can carry it: frequency and time in 32 bits. */
  function Carried(s: Spot): Spot { s.(freq := s.freq % 0x1_0000_0000, time := s.time % 0x1_0000_0000) }

  function CarriedAll(spots: seq<Spot>): (r: seq<Spot>)
    ensures |r| == |spots|
  {
    seq(|spots|, i requires 0 <= i < |spots| => Carried(spots[i]))
  }

  lemma HighByteWraps(v: int, k: int, w: int)
    requires v == 0x1_0000_0000 * k + w && 0 <= w < 0x1_0000_0000
    ensures v / 0x100_0000 % 0x100 == w / 0x100_0000 % 0x100
  {
    Quotient(v, 0x100_0000, 0x100 * k + w / 0x100_0000, w % 0x100_0000);
  }

  lemma SecondByteWraps(v: int, k: int, w: int)
    requires v == 0x1_0000_0000 * k + w && 0 <= w < 0x1_0000_0000
    ensures v / 0x1_0000 % 0x100 == w / 0x1_0000 % 0x100
  {
    Quotient(v, 0x1_0000, 0x1_0000 * k + w / 0x1_0000, w % 0x1_0000);
  }

  lemma LowBytesWrap(v: int, k: int, w: int)
    requires v == 0x1_0000_0000 * k + w && 0 <= w < 0x1_0000_0000
    ensures v / 0x100 % 0x100 == w / 0x100 % 0x100 && v % 0x100 == w % 0x100
  {
    Quotient(v, 0x100, 0x100_0000 * k + w / 0x100, w % 0x100);
  }

  lemma U32Wraps(v: int)
    ensures Read32(U32(v)) == v % 0x1_0000_0000
  {
    var k, w := v / 0x1_0000_0000, v % 0x1_0000_0000;
    HighByteWraps(v, k, w);
    SecondByteWraps(v, k, w);
    LowBytesWrap(v, k, w);
    FourBytes(w);
  }

  lemma RecordCarries(s: Spot)
    requires -128 <= s.snr <= 127
    ensures SpotOf(SpotRecord(s)) == Some(Carried(s))
  {
    SpotFields(s);
    OneByte(s.snr);
    U32Wraps(s.freq);
    U32Wraps(s.time);
  }

  /** The spots among records of the sender's template. */
  function SpotsIn(records: seq<Record>): seq<Spot> {
    if records == [] then []
    else (match SpotOf(records[0]) case Some(s) => [s] case None => []) + SpotsIn(records[1..])
  }

  /** The spots in a message, and the stations it names. */
  function SpotsOfSets(sets: seq<DataSet>): seq<Spot> {
    if sets == [] then []
    else (if sets[0].id == SENDER_TEMPLATE_ID then SpotsIn(sets[0].records) else []) + SpotsOfSets(sets[1..])
  }

  /** What the collector makes of batch k, with what it has learned by then. */
  function Collected(ledger: seq<Batch>, k: nat): seq<Spot>
    requires k < |ledger|
  {
    match ReadMessage(Learned(ledger[..k]), Packet(ledger[k].draft))
    case None => []
    case Some(m) => SpotsOfSets(m.content.sets)
  }

  predicate BoundedSnrs(spots: seq<Spot>) { forall i :: 0 <= i < |spots| ==> -128 <= spots[i].snr <= 127 }

  lemma {:induction false} RecordsCarry(spots: seq<Spot>)
    requires BoundedSnrs(spots)
    ensures SpotsIn(SpotRecords(spots)) == CarriedAll(spots)
  {
    if spots != [] {
      RecordCarries(spots[0]);
      assert SpotRecords(spots)[1..] == SpotRecords(spots[1..]);
      RecordsCarry(spots[1..]);
    }
  }

  lemma SetsCarry(station: Station, spots: seq<Spot>)
    requires BoundedSnrs(spots)
    ensures SpotsOfSets(Reports(station, spots)) == CarriedAll(spots)
  {
    var own := DataSet(RECEIVER_TEMPLATE_ID, [StationRecord(station)]);
    var theirs := DataSet(SENDER_TEMPLATE_ID, SpotRecords(spots));
    RecordsCarry(spots);
    if spots == [] {
      assert Reports(station, spots) == [own] && [own][1..] == [];
    } else {
      assert Reports(station, spots) == [own, theirs] && [own, theirs][1..] == [theirs] && [theirs][1..] == [];
      Unit(SpotsIn(SpotRecords(spots)));
      assert SpotsOfSets([theirs]) == SpotsIn(SpotRecords(spots));
      Unit(SpotsOfSets([theirs]));
    }
  }

  lemma BatchCollected(ledger: seq<Batch>, k: nat)
    requires k < |ledger| && ledger[k].draft.now >= 0 && ReadableAt(ledger, k) && BoundedSnrs(ledger[k].draft.spots)
    ensures Collected(ledger, k) == CarriedAll(ledger[k].draft.spots)
  {
    SetsCarry(ledger[k].draft.station, ledger[k].draft.spots);
  }

  /** Batch after batch: what the collector read of it, or what was dropped with it. */
  function Outcomes(ledger: seq<Batch>): seq<Spot> {
    if ledger == [] then []
    else
      var k := |ledger| - 1;
      Outcomes(ledger[..k]) + (if ledger[k].written then Collected(ledger, k) else CarriedAll(ledger[k].draft.spots))
  }

  lemma CarriedAppend(a: seq<Spot>, b: seq<Spot>)
    ensures CarriedAll(a + b) == CarriedAll(a) + CarriedAll(b)
  {
  }

  lemma ReadablePrefix(ledger: seq<Batch>)
    requires ledger != [] && Readable(ledger)
    ensures Readable(ledger[..|ledger| - 1])
  {
    var init := ledger[..|ledger| - 1];
    forall k | 0 <= k < |init| && init[k].written ensures init[k].draft.now >= 0 && ReadableAt(init, k) {
      assert init[k] == ledger[k] && init[..k] == ledger[..k] && init[..k + 1] == ledger[..k + 1];
      assert ReadableAt(ledger, k);
    }
  }

  lemma {:induction false} OutcomesCarry(ledger: seq<Batch>)
    requires Readable(ledger) && BoundedSnrs(Spots(ledger))
    ensures Outcomes(ledger) == CarriedAll(Spots(ledger))
  {
    if ledger != [] {
      var k := |ledger| - 1;
      var b := ledger[k];
      var all := Spots(ledger[..k]);
      ReadablePrefix(ledger);
      assert forall i :: 0 <= i < |all| ==> Spots(ledger)[i] == all[i];
      assert forall i :: 0 <= i < |b.draft.spots| ==> Spots(ledger)[|all| + i] == b.draft.spots[i];
      OutcomesCarry(ledger[..k]);
      CarriedAppend(all, b.draft.spots);
      if b.written {
        BatchCollected(ledger, k);
      }
    }
  }

  lemma {:induction false} SpotsAreBounded(spots: seq<Spot>, cfg: Config, events: seq<Event>)
    requires AreSpotsOf(spots, cfg, events)
    ensures BoundedSnrs(spots)
    decreases |events|
  {
    if events != [] {
      var init, last := events[..|events| - 1], events[|events| - 1];
      if Heeded(cfg, init, last) {
        SpotsAreBounded(spots[..|spots| - 1], cfg, init);
        assert forall i :: 0 <= i < |spots| - 1 ==> spots[i] == spots[..|spots| - 1][i];
      } else {
        SpotsAreBounded(spots, cfg, init);
      }
    }
  }

  lemma BoundedParts(a: seq<Spot>, b: seq<Spot>)
    requires BoundedSnrs(a + b)
    ensures BoundedSnrs(a)
  {
    assert forall i :: 0 <= i < |a| ==> (a + b)[i] == a[i];
  }

  /** From the events to the collector: over every run there is one spot, in order, for each reception
      let in, saying what it is meant to; and these are, batch after batch, what the collector read or
      what was dropped, and then what still waits. */
  lemma ReceptionsAreTold(cfg: Config, events: seq<Event>) returns (spots: seq<Spot>)
    requires (forall i :: 0 <= i < |events| ==> Dated(events[i])) && WritesFit(Ledger(cfg, Start(), events))
    ensures AreSpotsOf(spots, cfg, events)
    ensures Outcomes(Ledger(cfg, Start(), events)) + CarriedAll(Run(cfg, Start(), events).pending) == CarriedAll(spots)
  {
    var ledger, pending := Ledger(cfg, Start(), events), Run(cfg, Start(), events).pending;
    spots := Entered(cfg, Start(), events);
    EnteredAreSpots(cfg, events);
    EverySpotAccountedFor(cfg, Start(), events);
    Unit(spots);
    assert spots == Spots(ledger) + pending;
    SpotsAreBounded(spots, cfg, events);
    BoundedParts(Spots(ledger), pending);
    CollectorReadsAll(cfg, Start(), events);
    OutcomesCarry(ledger);
    CarriedAppend(Spots(ledger), pending);
  }

  // ---------------------------------------------------------------- when, and with what

  /** Everything that waits is sent by a flush exactly when the server was found and the datagram can be
      written; a disconnect takes it away in any case, unless there is nothing to end. */
  lemma SentIff(cfg: Config, events: seq<Event>, now: int, written: bool)
    ensures var r := Run(cfg, Start(), events);
            && (Leaves(cfg, r, Flush(now, written)) != [] <==> r.pending != [] && ResolvedAt(events) && written)
            && (Leaves(cfg, r, Disconnect(now, written)) != [] <==> r.pending != [] && r.status != Disconnected)
  {
    RunResolves(cfg, events);
  }

  /** When templates were last written; 0 before the first time. */
  function TemplatesAt(ledger: seq<Batch>): int {
    if ledger == [] then 0
    else
      var b := ledger[|ledger| - 1];
      if b.written && b.draft.withTemplates then b.draft.now else TemplatesAt(ledger[..|ledger| - 1])
  }

  lemma TemplatesSnoc(ledger: seq<Batch>, b: Batch)
    ensures TemplatesAt(ledger + [b]) == if b.written && b.draft.withTemplates then b.draft.now else TemplatesAt(ledger)
  {
    assert (ledger + [b])[..|ledger|] == ledger;
  }

  /** What a step does to the time of the last templates. */
  predicate Retimed(leaves: seq<Batch>, last: int, next: int) {
    if leaves == [] then next == last
    else
      && |leaves| == 1
      && next == if leaves[0].written && leaves[0].draft.withTemplates then leaves[0].draft.now else last
  }

  lemma StepTemplates(cfg: Config, r: Reporter, e: Event)
    ensures Retimed(Leaves(cfg, r, e), r.lastTemplate, Step(cfg, r, e).lastTemplate)
  {
  }

  lemma TemplatesOn(ledger: seq<Batch>, leaves: seq<Batch>, last: int, next: int)
    requires last == TemplatesAt(ledger) && Retimed(leaves, last, next)
    ensures next == TemplatesAt(ledger + leaves)
  {
    if leaves == [] {
      Unit(ledger);
    } else {
      assert leaves == [leaves[0]];
      TemplatesSnoc(ledger, leaves[0]);
    }
  }

  lemma {:induction false} TemplatesFollow(cfg: Config, events: seq<Event>)
    ensures Run(cfg, Start(), events).lastTemplate == TemplatesAt(Ledger(cfg, Start(), events))
  {
    if events != [] {
      var init, e := events[..|events| - 1], events[|events| - 1];
      TemplatesFollow(cfg, init);
      var r := Run(cfg, Start(), init);
      StepTemplates(cfg, r, e);
      TemplatesOn(Ledger(cfg, Start(), init), Leaves(cfg, r, e), r.lastTemplate, Step(cfg, r, e).lastTemplate);
    }
  }

  /** What every batch says of its sender and time, and that it repeats the templates exactly when none
      were written yet or the last ones are an hour old. */
  lemma BatchSays(cfg: Config, events: seq<Event>, e: Event)
    requires Leaves(cfg, Run(cfg, Start(), events), e) != []
    ensures var d := Leaves(cfg, Run(cfg, Start(), events), e)[0].draft;
            var last := TemplatesAt(Ledger(cfg, Start(), events));
            && (e.Flush? || e.Disconnect?) && d.now == e.now && d.domain == cfg.domain
            && d.station == Station(NameAt(cfg, events).0, NameAt(cfg, events).1, cfg.software)
            && (d.withTemplates <==> last == 0 || d.now >= last + 3600)
  {
    RunFollows(cfg, events);
    TemplatesFollow(cfg, events);
  }
}
