/** The value cache beside the command queue: what compare() lets through, and what is left of a
    sequence of updates. */
module RigCache {
  import opened CommandQueue
  import opened Options

  datatype CacheItem = CacheItem(command: Func, receiver: nat, value: Variant)

  /** QVariant::value<T>() between different types is Qt's; it stands here as a parameter. */
  type Cast = (Variant, Kind) -> seq<int>

  /** The members of b as type kind. */
  function View(cast: Cast, b: Variant, kind: Kind): seq<int> {
    if b.Variant? && b.kind == kind then b.key else cast(b, kind)
  }

  predicate AlwaysDiffers(kind: Kind) {
    kind.Text? || kind.ScopeData? || kind.MemoryType? || kind.MemoryTag? || kind.MemorySplit? || kind.BandStack?
    || kind.TimeKind? || kind.DateKind? || kind.MeterKind? || kind.UdpPreferences?
  }

  /** compare: does a replace b? */
  predicate Compare(cast: Cast, a: Variant, b: Variant) {
    if a.Variant? && b.Variant? then
      if AlwaysDiffers(a.kind) then true
      else if a.kind.Short? then View(cast, a, a.kind) != View(cast, a, a.kind)
      else if a.kind.Unknown? then false
      else a.key != View(cast, b, a.kind)
    else a.Variant?
  }

  /** Where the entry of a command and receiver is; |cache| when there is none. */
  function Find(cache: seq<CacheItem>, f: Func, receiver: nat): (i: nat)
    ensures i <= |cache|
    ensures forall j :: 0 <= j < i ==> cache[j].command != f || cache[j].receiver != receiver
    ensures i < |cache| ==> cache[i].command == f && cache[i].receiver == receiver
  {
    if cache == [] then 0
    else if cache[0].command == f && cache[0].receiver == receiver then 0
    else 1 + Find(cache[1..], f, receiver)
  }

  /** updateCache, the part that touches the cache. */
  function Updated(cast: Cast, cache: seq<CacheItem>, item: Item): seq<CacheItem> {
    var i := Find(cache, item.command, item.receiver);
    if i < |cache| then
      if Compare(cast, item.param, cache[i].value) then cache[i := cache[i].(value := item.param)] else cache
    else [CacheItem(item.command, item.receiver, item.param)] + cache
  }

  function Lookup(cache: seq<CacheItem>, f: Func, receiver: nat): Option<Variant> {
    var i := Find(cache, f, receiver);
    if i < |cache| then Some(cache[i].value) else None
  }

  /** At most one entry for a command and receiver. */
  predicate Unique(cache: seq<CacheItem>) {
    forall i, j :: 0 <= i < j < |cache| ==>
      cache[i].command != cache[j].command || cache[i].receiver != cache[j].receiver
  }

  /** What one update makes of what was there. */
  function Follow(cast: Cast, held: Option<Variant>, param: Variant): Variant {
    if held.Some? && !Compare(cast, param, held.value) then held.value else param
  }

  lemma FindIs(cache: seq<CacheItem>, f: Func, receiver: nat, i: nat)
    requires i <= |cache|
    requires forall j :: 0 <= j < i ==> cache[j].command != f || cache[j].receiver != receiver
    requires i < |cache| ==> cache[i].command == f && cache[i].receiver == receiver
    ensures Find(cache, f, receiver) == i
  {
  }

  lemma ReplaceValue(cache: seq<CacheItem>, at: nat, value: Variant, f: Func, receiver: nat)
    requires Unique(cache) && at < |cache|
    ensures var next := cache[at := cache[at].(value := value)];
            && Unique(next)
            && Lookup(next, f, receiver)
            == if f == cache[at].command && receiver == cache[at].receiver then Some(value)
               else Lookup(cache, f, receiver)
  {
    FindIs(cache[at := cache[at].(value := value)], f, receiver, Find(cache, f, receiver));
  }

  lemma PushItem(cache: seq<CacheItem>, item: CacheItem, f: Func, receiver: nat)
    ensures Lookup([item] + cache, f, receiver)
         == if f == item.command && receiver == item.receiver then Some(item.value) else Lookup(cache, f, receiver)
  {
    assert ([item] + cache)[1..] == cache;
  }

  lemma UniqueCons(item: CacheItem, cache: seq<CacheItem>)
    requires Unique(cache) && Find(cache, item.command, item.receiver) == |cache|
    ensures Unique([item] + cache)
  {
    var next := [item] + cache;
    forall i, j | 0 <= i < j < |next|
      ensures next[i].command != next[j].command || next[i].receiver != next[j].receiver
    {
      assert next[j] == cache[j - 1];
      if i > 0 {
        assert next[i] == cache[i - 1];
      }
    }
  }

  /** The cache refines a map from commands and receivers to values, one entry each, and an update
      changes its own entry alone. */
  lemma UpdateRefinesMap(cast: Cast, cache: seq<CacheItem>, item: Item, f: Func, receiver: nat)
    requires Unique(cache)
    ensures Unique(Updated(cast, cache, item))
    ensures Lookup(Updated(cast, cache, item), f, receiver)
         == if f == item.command && receiver == item.receiver
            then Some(Follow(cast, Lookup(cache, f, receiver), item.param))
            else Lookup(cache, f, receiver)
  {
    var at := Find(cache, item.command, item.receiver);
    if at == |cache| {
      PushItem(cache, CacheItem(item.command, item.receiver, item.param), f, receiver);
      UniqueCons(CacheItem(item.command, item.receiver, item.param), cache);
    } else if Compare(cast, item.param, cache[at].value) {
      ReplaceValue(cache, at, item.param, f, receiver);
    }
  }

  /** A request without a value leaves the value as it is. */
  lemma RequestChangesNothing(cast: Cast, cache: seq<CacheItem>, item: Item)
    requires item.param.Invalid?
    ensures Lookup(cache, item.command, item.receiver).Some? ==> Updated(cast, cache, item) == cache
  {
  }

  // ---------------------------------------------------------------- histories of one entry

  /** The cache after a run of updates, whatever their order and whoever they are for. */
  function CacheAfter(cast: Cast, items: seq<Item>): seq<CacheItem> {
    if items == [] then [] else Updated(cast, CacheAfter(cast, items[..|items| - 1]), items[|items| - 1])
  }

  /** What the run said about one command and receiver. */
  function History(items: seq<Item>, f: Func, receiver: nat): seq<Variant> {
    if items == [] then []
    else
      var last := items[|items| - 1];
      History(items[..|items| - 1], f, receiver)
      + (if last.command == f && last.receiver == receiver then [last.param] else [])
  }

  /** What an entry holds after a history of updates. */
  function Held(cast: Cast, history: seq<Variant>): Option<Variant> {
    if history == [] then None
    else Some(Follow(cast, Held(cast, history[..|history| - 1]), history[|history| - 1]))
  }

  /** In every reachable cache there is one entry for each command and receiver that was updated,
      and it depends on their own history alone. */
  lemma {:induction false} EveryCacheIsItsHistories(cast: Cast, items: seq<Item>, f: Func, receiver: nat)
    ensures Unique(CacheAfter(cast, items))
    ensures Lookup(CacheAfter(cast, items), f, receiver) == Held(cast, History(items, f, receiver))
  {
    if items != [] {
      var init, last := items[..|items| - 1], items[|items| - 1];
      EveryCacheIsItsHistories(cast, init, f, receiver);
      UpdateRefinesMap(cast, CacheAfter(cast, init), last, f, receiver);
      var before := History(init, f, receiver);
      assert before + [] == before && (before + [last.param])[..|before|] == before;
    }
  }

  /** The last valid value of a history, Invalid when there is none. */
  function LastValid(history: seq<Variant>): Variant {
    if history == [] then Invalid
    else if history[|history| - 1].Variant? then history[|history| - 1]
    else LastValid(history[..|history| - 1])
  }

  function FirstValid(history: seq<Variant>): Variant {
    if history == [] then Invalid
    else
      var before := FirstValid(history[..|history| - 1]);
      if before.Variant? then before else history[|history| - 1]
  }

  predicate AllOf(history: seq<Variant>, kind: Kind) {
    forall i :: 0 <= i < |history| ==> history[i].Variant? ==> history[i].kind == kind
  }

  /** Equal as far as compare() can tell. */
  predicate Alike(a: Variant, b: Variant) {
    a == b || (a.Variant? && b.Variant? && a.kind == b.kind && a.key == b.key)
  }

  /** Types whose values compare() never replaces. */
  predicate Frozen(kind: Kind) { kind.Short? || kind.Unknown? }

  lemma {:induction false} HeldFollows(cast: Cast, history: seq<Variant>, kind: Kind)
    requires AllOf(history, kind) && !Frozen(kind) && history != []
    ensures Alike(Held(cast, history).value, LastValid(history))
    ensures LastValid(history).Variant? ==> LastValid(history).kind == kind
    ensures AlwaysDiffers(kind) ==> Held(cast, history).value == LastValid(history)
  {
    var init := history[..|history| - 1];
    if init != [] {
      HeldFollows(cast, init, kind);
    }
  }

  lemma {:induction false} HeldFrozen(cast: Cast, history: seq<Variant>, kind: Kind)
    requires AllOf(history, kind) && Frozen(kind) && history != []
    ensures Held(cast, history).value == FirstValid(history)
    ensures FirstValid(history).Variant? ==> FirstValid(history).kind == kind
  {
    var init := history[..|history| - 1];
    if init != [] {
      HeldFrozen(cast, init, kind);
    }
  }

  lemma HeldTwo(cast: Cast, a: Variant, b: Variant)
    ensures Held(cast, [a, b]) == Some(Follow(cast, Some(a), b))
  {
    assert [a, b][..1] == [a] && [a][..0] == [];
    assert Held(cast, [a]) == Some(Follow(cast, None, a));
  }

  /** Of some types an entry holds exactly the last valid value, members and all else, because compare()
      lets everything through: these ten and no other. */
  lemma LastExactlyIff(cast: Cast, kind: Kind)
    ensures kind in {Text, ScopeData, MemoryType, MemoryTag, MemorySplit, BandStack, TimeKind, DateKind, MeterKind,
                     UdpPreferences}
       <==> forall history :: AllOf(history, kind) && history != [] ==> Held(cast, history) == Some(LastValid(history))
  {
    if AlwaysDiffers(kind) {
      forall history | AllOf(history, kind) && history != []
        ensures Held(cast, history) == Some(LastValid(history))
      {
        HeldFollows(cast, history, kind);
      }
    } else {
      var a, b := Variant(kind, [0], 0), Variant(kind, [0], 1);
      HeldTwo(cast, a, b);
      assert AllOf([a, b], kind) && LastValid([a, b]) == b;
    }
  }

  /** An entry of one type always holds its last valid value, up to what compare() sees, exactly
      when compare() really compares the type: not for short, compared with itself, nor for a type
      it does not know, both of which keep their first value for good. */
  lemma FollowsIffCompared(cast: Cast, kind: Kind)
    ensures !Frozen(kind) <==>
            forall history :: AllOf(history, kind) && history != [] ==>
              Alike(Held(cast, history).value, LastValid(history))
    ensures Frozen(kind) ==>
            forall history :: AllOf(history, kind) && history != [] ==> Held(cast, history).value == FirstValid(history)
  {
    if !Frozen(kind) {
      forall history | AllOf(history, kind) && history != []
        ensures Alike(Held(cast, history).value, LastValid(history))
      {
        HeldFollows(cast, history, kind);
      }
    } else {
      forall history | AllOf(history, kind) && history != []
        ensures Held(cast, history).value == FirstValid(history)
      {
        HeldFrozen(cast, history, kind);
      }
      var a, b := Variant(kind, [0], 0), Variant(kind, [1], 0);
      var history := [a, b];
      HeldTwo(cast, a, b);
      assert AllOf(history, kind) && !Alike(Held(cast, history).value, LastValid(history));
    }
  }

  // ---------------------------------------------------------------- rig state

  datatype VfoMode = ModeVfo | ModeMem | ModeSat

  const VFO_A := 0
  const VFO_B := 1
  const VFO_MAIN := 0xD0
  const VFO_SUB := 0xD1
  const VFO_MEM := 0xFE

  datatype RigState = RigState(vfoMode: VfoMode, vfo: int, receiver: nat)

  /** What of rigCapabilities the queue looks at. */
  datatype Caps = Caps(commands: set<Func>, numVFO: nat, numReceiver: nat)

  function AsInt(cast: Cast, v: Variant, kind: Kind): int {
    var members := View(cast, v, kind);
    if members == [] then 0 else members[0]
  }

  function AsByte(cast: Cast, v: Variant): nat { AsInt(cast, v, UChar) % 256 }

  function AfterReply(cast: Cast, rig: RigState, item: Item): RigState {
    var on := AsInt(cast, item.param, Bool) != 0;
    match item.command
    case SatelliteMode => if on then rig.(vfoMode := ModeSat) else rig
    case MemoryMode => if on then rig.(vfoMode := ModeMem) else rig
    case VFOMode => if on then rig.(vfoMode := ModeVfo) else rig
    case VFOBandMS => rig.(receiver := AsByte(cast, item.param))
    case _ => rig
  }

  function AfterRequest(cast: Cast, caps: Option<Caps>, rig: RigState, item: Item): RigState {
    match item.command
    case SelectVFO =>
      var vfo := AsInt(cast, item.param, Vfo);
      RigState(if vfo != VFO_MEM then ModeVfo else rig.vfoMode, vfo, rig.receiver)
    case VFOASelect => RigState(ModeVfo, VFO_A, rig.receiver)
    case VFOBSelect => if caps.Some? && caps.value.numVFO > 1 then RigState(ModeVfo, VFO_B, rig.receiver) else rig
    case VFOMainSelect => RigState(ModeVfo, VFO_MAIN, 0)
    case VFOSubSelect => if caps.Some? && caps.value.numReceiver > 1 then RigState(ModeVfo, VFO_SUB, 1) else rig
    case _ => rig
  }
}
