/** The scheduler of rig commands: its state, its operations, and the object that carries them out. */
module CachingQueue {
  import opened CommandQueue
  import opened Options
  import opened RigCache

  datatype State = State(queue: seq<Entry>, counter: nat, interval: int, caps: Option<Caps>, rig: RigState,
                         cache: seq<CacheItem>)

  /** Sorted, and nothing recurs at immediate priority. */
  predicate Valid(s: State) {
    && Sorted(s.queue) && Unique(s.cache)
    && forall i :: 0 <= i < |s.queue| ==> s.queue[i].prio == IMMEDIATE ==> !s.queue[i].item.recurring
  }

  function Start(): State {
    State([], IMMEDIATE, -1, None, RigState(ModeVfo, -1, 0), [])
  }

  // ---------------------------------------------------------------- one tick

  predicate Contains(q: seq<Entry>, p: nat) {
    exists i :: 0 <= i < |q| && q[i].prio == p
  }

  /** The level whose turn it is; IMMEDIATE when it is nobody's. */
  function Turn(counter: nat): nat {
    if counter % HIGHEST == 0 then HIGHEST
    else if counter % HIGH == 0 then HIGH
    else if counter % MEDIUM_HIGH == 0 then MEDIUM_HIGH
    else if counter % MEDIUM == 0 then MEDIUM
    else if counter % MEDIUM_LOW == 0 then MEDIUM_LOW
    else if counter % LOW == 0 then LOW
    else if counter % LOWEST == 0 then LOWEST
    else IMMEDIATE
  }

  /** A quint16. */
  function Increment(counter: nat): (r: nat)
    ensures r < 0x1_0000
  {
    (counter + 1) % 0x1_0000
  }

  /** The counter after a tick that found no immediate command. */
  function Advance(counter: nat): nat {
    Increment(if Turn(counter) == LOWEST then IMMEDIATE else counter)
  }

  /** Whose turn it is at a counter value, and the value after that, while nothing is immediate. */
  datatype Clock = Clock(turn: nat -> nat, step: nat -> nat)

  const RIG := Clock(Turn, Advance)

  /** What a step depends on besides the state. */
  datatype Env = Env(cast: Cast, clock: Clock)

  function Due(k: Clock, q: seq<Entry>, counter: nat): nat {
    if Contains(q, IMMEDIATE) then IMMEDIATE else k.turn(counter)
  }

  function CounterAfter(k: Clock, q: seq<Entry>, counter: nat): nat {
    if Contains(q, IMMEDIATE) then Increment(counter) else k.step(counter)
  }

  /** Number of entries up to the end of level p. */
  function UpTo(q: seq<Entry>, p: nat): (n: nat)
    ensures n <= |q|
  {
    if q == [] || q[0].prio > p then 0 else 1 + UpTo(q[1..], p)
  }

  lemma {:induction false} UpToIs(q: seq<Entry>, p: nat, i: nat)
    requires i <= |q| && (forall j :: 0 <= j < i ==> q[j].prio <= p) && (i < |q| ==> q[i].prio > p)
    ensures UpTo(q, p) == i
  {
    if i > 0 {
      UpToIs(q[1..], p, i - 1);
    }
  }

  /** What is dispatched from level p, if anything. */
  function Oldest(q: seq<Entry>, p: nat): Option<Item> {
    var n := UpTo(q, p);
    if n > 0 && q[n - 1].prio == p then Some(q[n - 1].item) else None
  }

  function QueueAfter(q: seq<Entry>, p: nat): seq<Entry> {
    var n := UpTo(q, p);
    if n > 0 && q[n - 1].prio == p then
      var rest := RemoveAt(q, n - 1);
      if q[n - 1].item.recurring && p != IMMEDIATE then Insert(rest, p, q[n - 1].item) else rest
    else q
  }

  function Requested(cast: Cast, s: State, item: Item): State {
    s.(rig := AfterRequest(cast, s.caps, s.rig, item), cache := Updated(cast, s.cache, item))
  }

  function Ticked(env: Env, s: State): State {
    var p := Due(env.clock, s.queue, s.counter);
    var sent := Oldest(s.queue, p);
    var next := s.(queue := QueueAfter(s.queue, p), counter := CounterAfter(env.clock, s.queue, s.counter));
    if sent.Some? && p != IMMEDIATE then
      Requested(env.cast, next, Item(sent.value.command, sent.value.param, sent.value.receiver, false))
    else next
  }

  function Dispatched(k: Clock, s: State): Option<Item> { Oldest(s.queue, Due(k, s.queue, s.counter)) }

  // ---------------------------------------------------------------- the other operations

  /** checkCommandAvailable. */
  function Available(caps: Option<Caps>, f: Func): Func {
    if caps.Some? && f != NoFunc && f != SelectVFO && f !in caps.value.commands then NoFunc else f
  }

  /** isRecurring: the level of the first recurring entry found. */
  function RecurringLevel(q: seq<Entry>, f: Func, receiver: nat): nat {
    var i := FindRecurring(q, f, receiver);
    if i < |q| then q[i].prio else NONE
  }

  const CURRENT := 0xFF

  predicate Accepts(s: State, item: Item) {
    s.interval != -1 && (item.receiver != CURRENT || s.rig.receiver == item.receiver) && item.command != NoFunc
  }

  /** The request for the current value that goes with a recurring command. */
  function WithRequest(q: seq<Entry>, item: Item): seq<Entry> {
    if item.recurring && item.command != TransceiverId
    then Insert(q, IMMEDIATE, item.(recurring := false, param := Invalid)) else q
  }

  function Inserted(q: seq<Entry>, p: nat, item: Item, unique: bool): seq<Entry> {
    Insert(WithRequest(if unique then RemoveSame(q, p, item) else q, item), p, item)
  }

  function Added(cast: Cast, s: State, p: nat, item: Item, unique: bool): State {
    var x := item.(command := Available(s.caps, item.command));
    if !Accepts(s, x) then s
    else
      var enters := (!x.recurring || RecurringLevel(s.queue, x.command, x.receiver) != p)
                    && !(x.recurring && p == IMMEDIATE);
      var next := if enters then s.(queue := Inserted(s.queue, p, x, unique)) else s;
      if !x.recurring && p == IMMEDIATE then Requested(cast, next, x) else next
  }

  function Deleted(s: State, f: Func, receiver: nat): State {
    var i := FindRecurring(s.queue, f, receiver);
    if f != NoFunc && i < |s.queue| then s.(queue := RemoveSame(s.queue, s.queue[i].prio, s.queue[i].item)) else s
  }

  function Moved(s: State, p: nat, f: Func, receiver: nat): State {
    var i := FindRecurring(s.queue, f, receiver);
    if f != NoFunc && p != IMMEDIATE && i < |s.queue|
    then s.(queue := Insert(RemoveAt(s.queue, i), p, s.queue[i].item)) else s
  }

  /** receiveValue. */
  function Received(cast: Cast, s: State, f: Func, value: Variant, receiver: nat): State {
    var item := Item(f, value, receiver, false);
    s.(rig := AfterReply(cast, s.rig, item), cache := Updated(cast, s.cache, item))
  }

  /** getCache: what a caller is answered. */
  function Answer(s: State, f: Func, receiver: nat): Option<Variant> {
    if f == NoFunc then None else Lookup(s.cache, f, receiver)
  }

  /** And whether the rig is asked again; stale says that its reply is too old. */
  predicate AsksAgain(s: State, f: Func, receiver: nat, stale: bool) {
    f !in {NoFunc, PowerControl, SelectVFO} && (Answer(s, f, receiver) in {None, Some(Invalid)} || stale)
  }

  datatype Event =
    | Tick
    | Add(prio: nat, item: Item, unique: bool)
    | Delete(f: Func, receiver: nat)
    | ChangePriority(newPrio: nat, f: Func, receiver: nat)
    | Receive(f: Func, value: Variant, receiver: nat)
    | Clear
    | SetInterval(interval: int)
    | SetCaps(caps: Option<Caps>)

  function Step(env: Env, s: State, e: Event): State {
    match e
    case Tick => Ticked(env, s)
    case Add(p, item, unique) => Added(env.cast, s, p, item, unique)
    case Delete(f, receiver) => Deleted(s, f, receiver)
    case ChangePriority(p, f, receiver) => Moved(s, p, f, receiver)
    case Receive(f, value, receiver) => Received(env.cast, s, f, value, receiver)
    case Clear => s.(queue := [])
    case SetInterval(interval) => s.(interval := interval)
    case SetCaps(caps) => s.(caps := caps)
  }

  function Run(env: Env, s: State, events: seq<Event>): State {
    if events == [] then s else Step(env, Run(env, s, events[..|events| - 1]), events[|events| - 1])
  }

  // ---------------------------------------------------------------- the object

  class Scheduler {
    var queue: seq<Entry>
    var cache: seq<CacheItem>
    var counter: nat
    var interval: int
    var caps: Option<Caps>
    var rig: RigState
    const cast: Cast

    function Contents(): State
      reads this
    {
      State(queue, counter, interval, caps, rig, cache)
    }

    constructor (cast: Cast)
      ensures Contents() == Start() && this.cast == cast
    {
      this.cast := cast;
      queue, cache, counter, interval, caps, rig := [], [], IMMEDIATE, -1, None, RigState(ModeVfo, -1, 0);
    }

    /** updateCache. */
    method UpdateCache(reply: bool, item: Item)
      modifies this`cache, this`rig
      ensures cache == Updated(cast, old(cache), item)
      ensures rig == if reply then AfterReply(cast, old(rig), item) else AfterRequest(cast, caps, old(rig), item)
    {
      rig := if reply then AfterReply(cast, rig, item) else AfterRequest(cast, caps, rig, item);
      var i := 0;
      while i < |cache|
        invariant 0 <= i <= |cache| && cache == old(cache)
        invariant forall j :: 0 <= j < i ==> cache[j].command != item.command || cache[j].receiver != item.receiver
      {
        if cache[i].command == item.command && cache[i].receiver == item.receiver {
          FindIs(cache, item.command, item.receiver, i);
          if Compare(cast, item.param, cache[i].value) {
            cache := cache[i := cache[i].(value := item.param)];
          }
          return;
        }
        i := i + 1;
      }
      FindIs(cache, item.command, item.receiver, i);
      cache := [CacheItem(item.command, item.receiver, item.param)] + cache;
    }

    /** Whose turn it is, and on to the next. */
    method TakeTurn() returns (prio: nat)
      modifies this`counter
      ensures prio == Due(RIG, queue, old(counter)) && counter == CounterAfter(RIG, queue, old(counter))
    {
      prio := IMMEDIATE;
      if !Contains(queue, prio) {
        prio := Turn(counter);
        if prio == LOWEST {
          counter := IMMEDIATE;
        }
      }
      counter := Increment(counter);
    }

    /** Past the entries of a level, and back by one. */
    method FindOldest(prio: nat) returns (found: bool, i: nat)
      requires Sorted(queue)
      ensures found == (UpTo(queue, prio) > 0 && queue[UpTo(queue, prio) - 1].prio == prio)
      ensures found ==> i == UpTo(queue, prio) - 1
    {
      i := 0;
      while i < |queue| && queue[i].prio < prio
        invariant 0 <= i <= |queue|
        invariant forall j :: 0 <= j < i ==> queue[j].prio < prio
      {
        i := i + 1;
      }
      found := i < |queue| && queue[i].prio == prio;
      if found {
        while i < |queue| && queue[i].prio == prio
          invariant 0 <= i <= |queue|
          invariant forall j :: 0 <= j < i ==> queue[j].prio <= prio
          invariant (i > 0 && queue[i - 1].prio == prio) || (i < |queue| && queue[i].prio == prio)
        {
          i := i + 1;
        }
        UpToIs(queue, prio, i);
        i := i - 1;
      } else {
        UpToIs(queue, prio, i);
      }
    }

    /** Takes the oldest entry of a level out, and puts it back as the newest when it recurs. */
    method TakeOldest(prio: nat) returns (sent: Option<Item>)
      requires Sorted(queue)
      modifies this`queue
      ensures sent == Oldest(old(queue), prio) && queue == QueueAfter(old(queue), prio)
    {
      sent := None;
      var found, i := FindOldest(prio);
      if found {
        var item := queue[i].item;
        sent := Some(item);
        queue := RemoveAt(queue, i);
        if item.recurring && prio != IMMEDIATE {
          queue := Insert(queue, prio, item);
        }
      }
    }

    /** One pass of run() when its deadline has expired. */
    method Process() returns (sent: Option<Item>)
      requires Sorted(queue)
      modifies this
      ensures Contents() == Ticked(Env(cast, RIG), old(Contents())) && sent == old(Dispatched(RIG, Contents()))
    {
      var prio := TakeTurn();
      sent := TakeOldest(prio);
      if sent.Some? && prio != IMMEDIATE {
        UpdateCache(false, Item(sent.value.command, sent.value.param, sent.value.receiver, false));
      }
    }

    method FindFirstRecurring(f: Func, receiver: nat) returns (i: nat)
      ensures i == FindRecurring(queue, f, receiver)
    {
      i := 0;
      while i < |queue|
            && !(queue[i].item.command == f && queue[i].item.receiver == receiver && queue[i].item.recurring)
        invariant 0 <= i <= |queue|
        invariant FindRecurring(queue, f, receiver) == i + FindRecurring(queue[i..], f, receiver)
      {
        assert queue[i..][1..] == queue[i + 1..];
        i := i + 1;
      }
    }

    method Enqueue(prio: nat, item: Item, unique: bool)
      modifies this
      ensures Contents() == Added(cast, old(Contents()), prio, item, unique)
    {
      if interval != -1 {
        var x := item.(command := Available(caps, item.command));
        if (x.receiver != CURRENT || rig.receiver == x.receiver) && x.command != NoFunc {
          var at := FindFirstRecurring(x.command, x.receiver);
          var level := if at < |queue| then queue[at].prio else NONE;
          if !x.recurring || level != prio {
            if !(x.recurring && prio == IMMEDIATE) {
              if unique {
                queue := RemoveSame(queue, prio, x);
              }
              if x.recurring && x.command != TransceiverId {
                queue := Insert(queue, IMMEDIATE, x.(recurring := false, param := Invalid));
              }
              queue := Insert(queue, prio, x);
            }
          }
          if !x.recurring && prio == IMMEDIATE {
            UpdateCache(false, x);
          }
        }
      }
    }

    method Remove(f: Func, receiver: nat) returns (prio: nat)
      modifies this`queue
      ensures Contents() == Deleted(old(Contents()), f, receiver)
      ensures prio == if f == NoFunc then NONE else old(RecurringLevel(queue, f, receiver))
    {
      prio := NONE;
      if f != NoFunc {
        var at := FindFirstRecurring(f, receiver);
        if at < |queue| {
          prio := queue[at].prio;
          queue := RemoveSame(queue, prio, queue[at].item);
        }
      }
    }

    method ChangeLevel(newPrio: nat, f: Func, receiver: nat) returns (prio: nat)
      modifies this`queue
      ensures Contents() == Moved(old(Contents()), newPrio, f, receiver)
      ensures prio == if f == NoFunc || newPrio == IMMEDIATE then NONE else old(RecurringLevel(queue, f, receiver))
    {
      prio := NONE;
      if f != NoFunc && newPrio != IMMEDIATE {
        var at := FindFirstRecurring(f, receiver);
        if at < |queue| {
          prio := queue[at].prio;
          var item := queue[at].item;
          queue := Insert(RemoveAt(queue, at), newPrio, item);
        }
      }
    }

    method ReceiveValue(f: Func, value: Variant, receiver: nat)
      modifies this
      ensures Contents() == Received(cast, old(Contents()), f, value, receiver)
    {
      UpdateCache(true, Item(f, value, receiver, false));
    }

    method GetCache(f: Func, receiver: nat, stale: bool) returns (value: Option<Variant>)
      modifies this
      ensures value == old(Answer(Contents(), f, receiver))
      ensures Contents() == if old(AsksAgain(Contents(), f, receiver, stale))
                            then Added(cast, old(Contents()), IMMEDIATE, Item(f, Invalid, receiver, false), true)
                            else old(Contents())
    {
      value := None;
      if f != NoFunc {
        var i := 0;
        while i < |cache|
          invariant 0 <= i <= |cache| && value == None
          invariant forall j :: 0 <= j < i ==> cache[j].command != f || cache[j].receiver != receiver
        {
          if cache[i].command == f && cache[i].receiver == receiver {
            FindIs(cache, f, receiver, i);
            value := Some(cache[i].value);
            break;
          }
          i := i + 1;
        }
        if value == None {
          FindIs(cache, f, receiver, i);
        }
      }
      if f != NoFunc && f != PowerControl && f != SelectVFO && (value == None || value.value.Invalid? || stale) {
        Enqueue(IMMEDIATE, Item(f, Invalid, receiver, false), true);
      }
    }
  }
}
