/** What the scheduler's cache and rig state hold after any run, read off what was received and what was
    sent: every reply and every command that is sent reaches the entry of its command and receiver. */
module RigHistory {
  import opened Bytes
  import opened CommandQueue
  import opened Options
  import opened RigCache
  import opened CachingQueue
  import opened CachingQueueLaws

  // ---------------------------------------------------------------- what a run says

  /** What the rig replied, or was told; caps are the capabilities then known. */
  datatype Update = Update(reply: bool, item: Item, caps: Option<Caps>)

  /** The command is one of the rig's, as far as known. */
  function Offered(caps: Option<Caps>, f: Func): Func {
    if caps == None || f == SelectVFO || f in caps.value.commands then f else NoFunc
  }

  /** An immediate request for this item is let in. */
  predicate LetIn(s: State, item: Item) {
    s.interval != -1 && Offered(s.caps, item.command) != NoFunc && (item.receiver == 0xFF ==> s.rig.receiver == 0xFF)
  }

  function Plain(x: Item): Item { x.(recurring := false) }

  /** A reply; a command sent from any level but Immediate; an immediate command when it is let in. */
  function Says(env: Env, s: State, e: Event): seq<Update> {
    match e
    case Receive(f, value, receiver) => [Update(true, Item(f, value, receiver, false), s.caps)]
    case Tick =>
      if !Contains(s.queue, IMMEDIATE) && Dispatched(env.clock, s).Some? && env.clock.turn(s.counter) != IMMEDIATE
      then [Update(false, Plain(Dispatched(env.clock, s).value), s.caps)] else []
    case Add(prio, item, unique) =>
      if prio == IMMEDIATE && !item.recurring && LetIn(s, item)
      then [Update(false, item.(command := Offered(s.caps, item.command)), s.caps)] else []
    case _ => []
  }

  function Said(env: Env, s: State, events: seq<Event>): seq<Update> {
    if events == [] then []
    else
      var init := events[..|events| - 1];
      Said(env, s, init) + Says(env, Run(env, s, init), events[|events| - 1])
  }

  function Items(us: seq<Update>): (r: seq<Item>)
    ensures |r| == |us|
  {
    seq(|us|, i requires 0 <= i < |us| => us[i].item)
  }

  // ---------------------------------------------------------------- the cache

  lemma ItemsSnoc(us: seq<Update>, u: Update)
    ensures Items(us + [u]) == Items(us) + [u.item]
  {
  }

  lemma CacheSnoc(cast: Cast, items: seq<Item>, x: Item)
    ensures CacheAfter(cast, items + [x]) == Updated(cast, CacheAfter(cast, items), x)
  {
    assert (items + [x])[..|items|] == items;
  }

  /** One step's part. */
  lemma StepSays(env: Env, s: State, e: Event)
    ensures var us := Says(env, s, e);
            && |us| <= 1
            && Step(env, s, e).cache == if us == [] then s.cache else Updated(env.cast, s.cache, us[0].item)
  {
  }

  /** The cache is what the updates of the run make of an empty one. */
  lemma {:induction false} CacheIsSaid(env: Env, events: seq<Event>)
    ensures Run(env, Start(), events).cache == CacheAfter(env.cast, Items(Said(env, Start(), events)))
  {
    if events != [] {
      var init, e := events[..|events| - 1], events[|events| - 1];
      var us := Says(env, Run(env, Start(), init), e);
      CacheIsSaid(env, init);
      StepSays(env, Run(env, Start(), init), e);
      if us == [] {
        Unit(Said(env, Start(), init));
      } else {
        assert us == [us[0]];
        ItemsSnoc(Said(env, Start(), init), us[0]);
        CacheSnoc(env.cast, Items(Said(env, Start(), init)), us[0].item);
      }
    }
  }

  /** What the run said about one command and receiver. */
  function HistoryOf(env: Env, events: seq<Event>, f: Func, receiver: nat): seq<Variant> {
    History(Items(Said(env, Start(), events)), f, receiver)
  }

  /** After every run the entry of a command and receiver holds what the replies, the commands sent and
      the immediate requests for them, in order, leave. */
  lemma EntryIsHistory(env: Env, events: seq<Event>, f: Func, receiver: nat)
    ensures Lookup(Run(env, Start(), events).cache, f, receiver) == Held(env.cast, HistoryOf(env, events, f, receiver))
  {
    CacheIsSaid(env, events);
    EveryCacheIsItsHistories(env.cast, Items(Said(env, Start(), events)), f, receiver);
  }

  /** The updates of a continuation come behind. */
  lemma {:induction false} SaidAppend(env: Env, s: State, events: seq<Event>, more: seq<Event>)
    ensures Run(env, s, events + more) == Run(env, Run(env, s, events), more)
    ensures Said(env, s, events + more) == Said(env, s, events) + Said(env, Run(env, s, events), more)
  {
    if more == [] {
      Unit(events);
      Unit(Said(env, s, events));
    } else {
      var init := more[..|more| - 1];
      assert (events + more)[..|events + more| - 1] == events + init;
      SaidAppend(env, s, events, init);
      Assoc(Said(env, s, events), Said(env, Run(env, s, events), init),
            Says(env, Run(env, s, events + init), more[|more| - 1]));
    }
  }

  lemma {:induction false} HistoryAppend(a: seq<Item>, b: seq<Item>, f: Func, receiver: nat)
    ensures History(a + b, f, receiver) == History(a, f, receiver) + History(b, f, receiver)
  {
    if b == [] {
      Unit(a);
      Unit(History(a, f, receiver));
    } else {
      assert (a + b)[..|a + b| - 1] == a + b[..|b| - 1];
      HistoryAppend(a, b[..|b| - 1], f, receiver);
    }
  }

  lemma ItemsAppend(a: seq<Update>, b: seq<Update>)
    ensures Items(a + b) == Items(a) + Items(b)
  {
  }

  predicate NothingValid(history: seq<Variant>) { forall i :: 0 <= i < |history| ==> history[i].Invalid? }

  lemma {:induction false} LastValidStays(history: seq<Variant>, more: seq<Variant>)
    requires NothingValid(more)
    ensures LastValid(history + more) == LastValid(history)
  {
    if more == [] {
      Unit(history);
    } else {
      assert (history + more)[..|history + more| - 1] == history + more[..|more| - 1];
      LastValidStays(history, more[..|more| - 1]);
    }
  }

  lemma LastValidIs(history: seq<Variant>, v: Variant)
    requires v.Variant?
    ensures LastValid(history + [v]) == v
  {
  }

  lemma ReplySaid(env: Env, events: seq<Event>, f: Func, v: Variant, receiver: nat)
    ensures var u := Update(true, Item(f, v, receiver, false), Run(env, Start(), events).caps);
            Said(env, Start(), events + [Receive(f, v, receiver)]) == Said(env, Start(), events) + [u]
  {
    assert (events + [Receive(f, v, receiver)])[..|events|] == events;
  }

  lemma HistorySnoc(items: seq<Item>, x: Item)
    ensures History(items + [x], x.command, x.receiver) == History(items, x.command, x.receiver) + [x.param]
  {
    assert (items + [x])[..|items|] == items;
  }

  /** What the rig's reply adds to the history of its entry. */
  lemma ReplyAdds(env: Env, events: seq<Event>, f: Func, v: Variant, receiver: nat)
    ensures HistoryOf(env, events + [Receive(f, v, receiver)], f, receiver)
         == HistoryOf(env, events, f, receiver) + [v]
  {
    var x := Item(f, v, receiver, false);
    ReplySaid(env, events, f, v, receiver);
    ItemsSnoc(Said(env, Start(), events), Update(true, x, Run(env, Start(), events).caps));
    HistorySnoc(Items(Said(env, Start(), events)), x);
  }

  lemma HistoryAround(env: Env, events: seq<Event>, f: Func, v: Variant, receiver: nat, more: seq<Event>)
    ensures var first := events + [Receive(f, v, receiver)];
            HistoryOf(env, first + more, f, receiver)
            == HistoryOf(env, events, f, receiver) + [v]
               + History(Items(Said(env, Run(env, Start(), first), more)), f, receiver)
  {
    var first := events + [Receive(f, v, receiver)];
    var later := Said(env, Run(env, Start(), first), more);
    ReplyAdds(env, events, f, v, receiver);
    SaidAppend(env, Start(), first, more);
    ItemsAppend(Said(env, Start(), first), later);
    HistoryAppend(Items(Said(env, Start(), first)), Items(later), f, receiver);
  }

  lemma KeptAlike(cast: Cast, before: seq<Variant>, v: Variant, after: seq<Variant>)
    requires v.Variant? && !Frozen(v.kind) && AllOf(before, v.kind) && NothingValid(after)
    ensures Held(cast, before + [v] + after).Some? && Alike(Held(cast, before + [v] + after).value, v)
  {
    LastValidIs(before, v);
    LastValidStays(before + [v], after);
    HeldFollows(cast, before + [v] + after, v.kind);
  }

  /** A reply of a type that is compared stays the entry's value, as far as compare() can see, until
      something else with a value is said about that command and receiver: over any continuation. */
  lemma ReplyIsKept(env: Env, events: seq<Event>, f: Func, v: Variant, receiver: nat, more: seq<Event>)
    requires v.Variant? && !Frozen(v.kind) && AllOf(HistoryOf(env, events, f, receiver), v.kind)
    requires var s := Run(env, Start(), events + [Receive(f, v, receiver)]);
             NothingValid(History(Items(Said(env, s, more)), f, receiver))
    ensures var held := Lookup(Run(env, Start(), events + [Receive(f, v, receiver)] + more).cache, f, receiver);
            held.Some? && Alike(held.value, v)
  {
    var first := events + [Receive(f, v, receiver)];
    EntryIsHistory(env, first + more, f, receiver);
    HistoryAround(env, events, f, v, receiver, more);
    KeptAlike(env.cast, HistoryOf(env, events, f, receiver), v,
              History(Items(Said(env, Run(env, Start(), first), more)), f, receiver));
  }

  // ---------------------------------------------------------------- asking the cache

  predicate Nothing(held: Option<Variant>) { held == None || held.value == Invalid }

  /** A value replaces no value, and no value replaces none. */
  lemma FollowsNothing(cast: Cast, held: Option<Variant>, param: Variant)
    ensures Follow(cast, held, param) == Invalid <==> Nothing(held) && param == Invalid
  {
    if held.Some? && held.value.Variant? && param == Invalid {
      assert !Compare(cast, param, held.value);
    }
  }

  lemma {:induction false} HeldIsNothing(cast: Cast, history: seq<Variant>)
    ensures Nothing(Held(cast, history)) <==> NothingValid(history)
  {
    if history != [] {
      var init, last := history[..|history| - 1], history[|history| - 1];
      HeldIsNothing(cast, init);
      FollowsNothing(cast, Held(cast, init), last);
      assert forall i :: 0 <= i < |init| ==> history[i] == init[i];
    }
  }

  /** The rig is asked again for any command but those two exactly when the answer is stale or nothing with
      a value was ever said of it. */
  lemma AsksIff(env: Env, events: seq<Event>, f: Func, receiver: nat, stale: bool)
    ensures AsksAgain(Run(env, Start(), events), f, receiver, stale)
       <==> f != NoFunc && f != PowerControl && f != SelectVFO
            && (stale || NothingValid(HistoryOf(env, events, f, receiver)))
  {
    EntryIsHistory(env, events, f, receiver);
    HeldIsNothing(env.cast, HistoryOf(env, events, f, receiver));
  }

  /** The question as an event. */
  function Question(f: Func, receiver: nat): Event { Add(IMMEDIATE, Item(f, Invalid, receiver, false), true) }

  lemma QuestionAsks(env: Env, s: State, f: Func, receiver: nat)
    requires LetIn(s, Item(f, Invalid, receiver, false)) && f !in {NoFunc, PowerControl, SelectVFO} && Unique(s.cache)
    ensures var x, next := Item(f, Invalid, receiver, false), Step(env, s, Question(f, receiver));
            && Level(next.queue, IMMEDIATE) == Without(Level(s.queue, IMMEDIATE), x) + [x]
            && Answer(next, f, receiver)
               == if Answer(s, f, receiver) == None then Some(Invalid) else Answer(s, f, receiver)
  {
    var x := Item(f, Invalid, receiver, false);
    Unit(Without(Level(s.queue, IMMEDIATE), x));
    AddedLevels(s.queue, IMMEDIATE, x, true, IMMEDIATE);
    UpdateRefinesMap(env.cast, s.cache, x, f, receiver);
  }

  /** The answer after any run is what the run said of that entry; with no value, or a stale one, the rig
      is asked at once: one such request then waits at immediate priority, the newest there, and what
      the cache held it still holds. */
  lemma AnswerOverRuns(env: Env, events: seq<Event>, f: Func, receiver: nat, stale: bool)
    ensures var s := Run(env, Start(), events);
            && (f != NoFunc ==> Answer(s, f, receiver) == Held(env.cast, HistoryOf(env, events, f, receiver)))
            && (AsksAgain(s, f, receiver, stale) && LetIn(s, Item(f, Invalid, receiver, false)) ==>
                  var next := Step(env, s, Question(f, receiver));
                  && Level(next.queue, IMMEDIATE)
                     == Without(Level(s.queue, IMMEDIATE), Item(f, Invalid, receiver, false))
                        + [Item(f, Invalid, receiver, false)]
                  && Answer(next, f, receiver) == if Answer(s, f, receiver) == None then Some(Invalid)
                                                  else Answer(s, f, receiver))
  {
    var s, x := Run(env, Start(), events), Item(f, Invalid, receiver, false);
    EntryIsHistory(env, events, f, receiver);
    if AsksAgain(s, f, receiver, stale) && LetIn(s, x) {
      CacheIsSaid(env, events);
      EveryCacheIsItsHistories(env.cast, Items(Said(env, Start(), events)), f, receiver);
      QuestionAsks(env, s, f, receiver);
    }
  }

  // ---------------------------------------------------------------- the rig's state

  /** The receiver in use: what the rig last said, or which was selected since. */
  function ReceiverAt(cast: Cast, us: seq<Update>): nat {
    if us == [] then 0
    else
      var u := us[|us| - 1];
      if u.reply && u.item.command == VFOBandMS then AsByte(cast, u.item.param)
      else if !u.reply && u.item.command == VFOMainSelect then 0
      else if !u.reply && u.item.command == VFOSubSelect && u.caps.Some? && u.caps.value.numReceiver > 1 then 1
      else ReceiverAt(cast, us[..|us| - 1])
  }

  /** The VFO asked for: the rig does not reply to that. */
  function VfoAt(cast: Cast, us: seq<Update>): int {
    if us == [] then -1
    else
      var u := us[|us| - 1];
      if u.reply then VfoAt(cast, us[..|us| - 1])
      else
        match u.item.command
        case SelectVFO => AsInt(cast, u.item.param, Vfo)
        case VFOASelect => 0
        case VFOMainSelect => 0xD0
        case VFOBSelect => if u.caps.Some? && u.caps.value.numVFO > 1 then 1 else VfoAt(cast, us[..|us| - 1])
        case VFOSubSelect =>
          if u.caps.Some? && u.caps.value.numReceiver > 1 then 0xD1 else VfoAt(cast, us[..|us| - 1])
        case _ => VfoAt(cast, us[..|us| - 1])
  }

  /** The mode an update sets, if any: a reply that the rig is in it, or the selection of a VFO that is
      there and is no memory. */
  function ModeSet(cast: Cast, u: Update): Option<VfoMode> {
    var c := u.item.command;
    if u.reply then
      if AsInt(cast, u.item.param, Bool) == 0 then None
      else if c == SatelliteMode then Some(ModeSat)
      else if c == MemoryMode then Some(ModeMem)
      else if c == VFOMode then Some(ModeVfo)
      else None
    else if c == VFOASelect || c == VFOMainSelect || (c == SelectVFO && AsInt(cast, u.item.param, Vfo) != 0xFE)
      || (c == VFOBSelect && u.caps.Some? && u.caps.value.numVFO > 1)
      || (c == VFOSubSelect && u.caps.Some? && u.caps.value.numReceiver > 1) then Some(ModeVfo)
    else None
  }

  function ModeAt(cast: Cast, us: seq<Update>): VfoMode {
    if us == [] then ModeVfo
    else
      match ModeSet(cast, us[|us| - 1])
      case Some(mode) => mode
      case None => ModeAt(cast, us[..|us| - 1])
  }

  function RigAt(cast: Cast, us: seq<Update>): RigState {
    RigState(ModeAt(cast, us), VfoAt(cast, us), ReceiverAt(cast, us))
  }

  lemma RigSnoc(cast: Cast, us: seq<Update>, u: Update)
    ensures RigAt(cast, us + [u]) == if u.reply then AfterReply(cast, RigAt(cast, us), u.item)
                                     else AfterRequest(cast, u.caps, RigAt(cast, us), u.item)
  {
    assert (us + [u])[..|us|] == us;
  }

  lemma StepSaysRig(env: Env, s: State, e: Event)
    ensures var us := Says(env, s, e);
            && |us| <= 1
            && Step(env, s, e).rig
               == if us == [] then s.rig
                  else if us[0].reply then AfterReply(env.cast, s.rig, us[0].item)
                  else AfterRequest(env.cast, us[0].caps, s.rig, us[0].item)
  {
  }

  /** After every run mode, VFO and receiver are each what the last update that has a say in it set. */
  lemma {:induction false} RigIsSaid(env: Env, events: seq<Event>)
    ensures Run(env, Start(), events).rig == RigAt(env.cast, Said(env, Start(), events))
  {
    if events != [] {
      var init, e := events[..|events| - 1], events[|events| - 1];
      var us := Says(env, Run(env, Start(), init), e);
      RigIsSaid(env, init);
      StepSaysRig(env, Run(env, Start(), init), e);
      if us == [] {
        Unit(Said(env, Start(), init));
      } else {
        assert us == [us[0]];
        RigSnoc(env.cast, Said(env, Start(), init), us[0]);
      }
    }
  }
}
