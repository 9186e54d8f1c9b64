/** A reporter whose spots no longer fit one datagram: since no datagram that long is ever written, the
    spots stay, every later one stays behind them, and a disconnect drops them all. */
module SpotBacklog {
  import opened Bytes
  import opened Ipfix
  import opened PskReporter
  import opened SpotReporter

  /** The station's set: its header and four empty fields. */
  const LEAST_STATION_SET := 8

  /** The fewest spots no datagram can hold, however short their texts. */
  const MANY := 5459

  /** No datagram holds these spots, whatever is said about the station. */
  predicate TooLarge(spots: seq<Spot>) { HEADER + LEAST_STATION_SET + SetLength(SpotsBody(spots)) >= 0x1_0000 }

  // ---------------------------------------------------------------- lengths

  lemma SpotLength(spots: seq<Spot>)
    requires spots != []
    ensures |SpotsBody(spots)| == |RecordBytes(SENDER, SpotRecord(spots[0]))| + |SpotsBody(spots[1..])|
  {
    assert SpotRecords(spots)[1..] == SpotRecords(spots[1..]);
  }

  lemma {:induction false} BodyLength(a: seq<Spot>, b: seq<Spot>)
    ensures |SpotsBody(a + b)| == |SpotsBody(a)| + |SpotsBody(b)|
  {
    if a == [] {
      Unit(b);
    } else {
      assert (a + b)[0] == a[0] && (a + b)[1..] == a[1..] + b;
      SpotLength(a);
      SpotLength(a + b);
      BodyLength(a[1..], b);
    }
  }

  lemma {:induction false} LeastRecord(t: Template, r: Record)
    requires |t| == |r| && forall i :: 0 <= i < |t| && t[i].length != VARIABLE ==> |r[i]| == t[i].length
    ensures |RecordBytes(t, r)| >= MinLength(t)
  {
    if t != [] {
      LeastRecord(t[1..], r[1..]);
    }
  }

  lemma LeastSpot(s: Spot)
    ensures |RecordBytes(SENDER, SpotRecord(s))| >= 12
  {
    ShortestRecords();
    LeastRecord(SENDER, SpotRecord(s));
  }

  lemma LeastStation(s: Station)
    ensures SetLength(StationBody(s)) >= LEAST_STATION_SET
  {
    ShortestRecords();
    LeastRecord(RECEIVER, StationRecord(s));
    assert [StationRecord(s)][1..] == [];
  }

  lemma {:induction false} LeastBody(spots: seq<Spot>)
    ensures |SpotsBody(spots)| >= 12 * |spots|
  {
    if spots != [] {
      SpotLength(spots);
      LeastSpot(spots[0]);
      LeastBody(spots[1..]);
    }
  }

  /** That many spots are too many. */
  lemma ManyAreTooLarge(spots: seq<Spot>)
    requires |spots| >= MANY
    ensures TooLarge(spots)
  {
    LeastBody(spots);
  }

  /** Longer bodies make longer sets. */
  lemma SetsGrow(a: seq<byte>, b: seq<byte>)
    requires |a| <= |b|
    ensures SetLength(a) <= SetLength(b)
  {
  }

  lemma TooLargeGrows(spots: seq<Spot>, more: seq<Spot>)
    requires TooLarge(spots)
    ensures TooLarge(spots + more)
  {
    BodyLength(spots, more);
    SetsGrow(SpotsBody(spots), SpotsBody(spots + more));
  }

  lemma NeverFits(d: Draft)
    requires TooLarge(d.spots)
    ensures |Packet(d)| >= 0x1_0000
  {
    LengthRightIffFits(d);
    LeastStation(d.station);
  }

  // ---------------------------------------------------------------- runs

  predicate NoDisconnect(events: seq<Event>) { forall i :: 0 <= i < |events| ==> !events[i].Disconnect? }

  lemma StepBlocked(cfg: Config, r: Reporter, e: Event)
    requires TooLarge(r.pending) && !e.Disconnect? && WritesFit(Leaves(cfg, r, e))
    ensures Leaves(cfg, r, e) == [] && Step(cfg, r, e).pending == r.pending + Enters(cfg, r, e)
    ensures r.status != Disconnected ==> Step(cfg, r, e).status != Disconnected
  {
    StepBalanced(cfg, r, e);
    if Leaves(cfg, r, e) != [] {
      var b := Leaves(cfg, r, e)[0];
      NeverFits(b.draft);
      assert false;
    }
  }

  /** Over any run without a disconnect nothing leaves: not what was there, and not what came later. */
  lemma {:induction false} BacklogStays(cfg: Config, r: Reporter, events: seq<Event>)
    requires TooLarge(r.pending) && NoDisconnect(events) && WritesFit(Ledger(cfg, r, events))
    ensures Ledger(cfg, r, events) == [] && TooLarge(Run(cfg, r, events).pending)
    ensures Run(cfg, r, events).pending == r.pending + Entered(cfg, r, events)
    ensures r.status != Disconnected ==> Run(cfg, r, events).status != Disconnected
  {
    if events == [] {
      Unit(r.pending);
    } else {
      var init, e := events[..|events| - 1], events[|events| - 1];
      var now := Run(cfg, r, init);
      LedgerGrows(cfg, r, events);
      BacklogStays(cfg, r, init);
      Unit(Leaves(cfg, now, e));
      StepBlocked(cfg, now, e);
      TooLargeGrows(now.pending, Enters(cfg, now, e));
      Assoc(r.pending, Entered(cfg, r, init), Enters(cfg, now, e));
    }
  }

  /** And the disconnect that ends such a run drops them all. */
  lemma BacklogDropped(cfg: Config, r: Reporter, events: seq<Event>, now: int, written: bool)
    requires TooLarge(r.pending) && r.status != Disconnected && NoDisconnect(events)
    requires WritesFit(Ledger(cfg, r, events + [Disconnect(now, written)]))
    ensures var all := events + [Disconnect(now, written)];
            && Run(cfg, r, all).pending == []
            && |Ledger(cfg, r, all)| == 1 && !Ledger(cfg, r, all)[0].written
            && Ledger(cfg, r, all)[0].draft.spots == r.pending + Entered(cfg, r, events)
  {
    var all, e := events + [Disconnect(now, written)], Disconnect(now, written);
    assert all[..|events|] == events && all[|events|] == e;
    LedgerGrows(cfg, r, all);
    BacklogStays(cfg, r, events);
    Unit(Leaves(cfg, Run(cfg, r, events), e));
    NeverFits(DraftOf(cfg, Run(cfg, r, events), now));
  }
}
