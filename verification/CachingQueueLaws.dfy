/** What the command scheduler guarantees over whole runs: nothing recurring is lost, each level is
    first in first out, and every level gets its turns. */
module CachingQueueLaws {
  import opened CachingQueue
  import opened CommandQueue
  import opened Options
  import opened RigCache

  // ---------------------------------------------------------------- nothing recurs at once

  predicate Clean(q: seq<Entry>) {
    forall i :: 0 <= i < |q| ==> q[i].prio == IMMEDIATE ==> !q[i].item.recurring
  }

  lemma {:induction false} InsertClean(q: seq<Entry>, p: nat, x: Item)
    requires Clean(q) && (p == IMMEDIATE ==> !x.recurring)
    ensures Clean(Insert(q, p, x))
  {
    if q != [] && q[0].prio < p {
      InsertClean(q[1..], p, x);
    }
  }

  lemma {:induction false} RemoveSameClean(q: seq<Entry>, p: nat, x: Item)
    requires Clean(q)
    ensures Clean(RemoveSame(q, p, x))
  {
    if q != [] {
      RemoveSameClean(q[1..], p, x);
    }
  }

  lemma {:induction false} FoundIsRecurring(q: seq<Entry>, f: Func, receiver: nat)
    ensures var i := FindRecurring(q, f, receiver);
            i < |q| ==> q[i].item.recurring && q[i].item.command == f && q[i].item.receiver == receiver
  {
    if q != [] {
      FoundIsRecurring(q[1..], f, receiver);
    }
  }

  predicate Good(q: seq<Entry>) { Sorted(q) && Clean(q) }

  lemma InsertGood(q: seq<Entry>, p: nat, x: Item)
    requires Good(q) && (p == IMMEDIATE ==> !x.recurring)
    ensures Good(Insert(q, p, x))
  {
    InsertSorted(q, p, x);
    InsertClean(q, p, x);
  }

  lemma RemoveSameGood(q: seq<Entry>, p: nat, x: Item)
    requires Good(q)
    ensures Good(RemoveSame(q, p, x))
  {
    RemoveSameSorted(q, p, x, 0);
    RemoveSameClean(q, p, x);
  }

  lemma AfterGood(q: seq<Entry>, p: nat)
    requires Good(q)
    ensures Good(QueueAfter(q, p))
  {
    var n := UpTo(q, p);
    if n > 0 && q[n - 1].prio == p {
      RemoveSorted(q, n - 1);
      if q[n - 1].item.recurring && p != IMMEDIATE {
        InsertGood(RemoveAt(q, n - 1), p, q[n - 1].item);
      }
    }
  }

  lemma InsertedGood(q: seq<Entry>, p: nat, x: Item, unique: bool)
    requires Good(q) && !(x.recurring && p == IMMEDIATE)
    ensures Good(Inserted(q, p, x, unique))
  {
    RemoveSameGood(q, p, x);
    var q1 := if unique then RemoveSame(q, p, x) else q;
    InsertGood(q1, IMMEDIATE, x.(recurring := false, param := Invalid));
    InsertGood(WithRequest(q1, x), p, x);
  }

  lemma MovedGood(s: State, p: nat, f: Func, receiver: nat)
    requires Good(s.queue)
    ensures Good(Moved(s, p, f, receiver).queue)
  {
    var i := FindRecurring(s.queue, f, receiver);
    if f != NoFunc && p != IMMEDIATE && i < |s.queue| {
      RemoveSorted(s.queue, i);
      InsertGood(RemoveAt(s.queue, i), p, s.queue[i].item);
    }
  }

  lemma StepGood(env: Env, s: State, e: Event)
    requires Good(s.queue)
    ensures Good(Step(env, s, e).queue)
  {
    match e
    case Tick => AfterGood(s.queue, Due(env.clock, s.queue, s.counter));
    case Add(p, item, unique) =>
      var x := item.(command := Available(s.caps, item.command));
      if !(x.recurring && p == IMMEDIATE) {
        InsertedGood(s.queue, p, x, unique);
      }
    case Delete(f, receiver) =>
      var i := FindRecurring(s.queue, f, receiver);
      if i < |s.queue| {
        RemoveSameGood(s.queue, s.queue[i].prio, s.queue[i].item);
      }
    case ChangePriority(p, f, receiver) => MovedGood(s, p, f, receiver);
    case _ =>
  }

  lemma StepUnique(env: Env, s: State, e: Event)
    requires Unique(s.cache)
    ensures Unique(Step(env, s, e).cache)
  {
    forall item | true
      ensures Unique(Updated(env.cast, s.cache, item))
    {
      UpdateRefinesMap(env.cast, s.cache, item, NoFunc, 0);
    }
  }

  /** Every reachable state is valid: sorted, one cache entry a key, and no recurring command at
      immediate priority, whatever is added, moved, removed or received in whatever order. */
  lemma {:induction false} ReachableIsValid(env: Env, s: State, events: seq<Event>)
    requires Valid(s)
    ensures Valid(Run(env, s, events))
  {
    if events != [] {
      var init := events[..|events| - 1];
      ReachableIsValid(env, s, init);
      StepGood(env, Run(env, s, init), events[|events| - 1]);
      StepUnique(env, Run(env, s, init), events[|events| - 1]);
    }
  }

  // ---------------------------------------------------------------- one tick, level by level

  lemma {:induction false} UpToSplits(q: seq<Entry>, p: nat)
    requires Sorted(q)
    ensures forall i :: 0 <= i < UpTo(q, p) ==> q[i].prio <= p
    ensures forall i :: UpTo(q, p) <= i < |q| ==> q[i].prio > p
  {
    if q != [] {
      assert q == [q[0]] + q[1..];
      SortedCons(q[0], q[1..]);
      UpToSplits(q[1..], p);
      assert forall i :: 0 < i < |q| ==> q[i] == q[1..][i - 1];
    }
  }

  /** A tick serves the level that is due: its oldest item is sent, and becomes the newest if it
      recurs; all other levels stay as they are. */
  lemma ServeLevel(q: seq<Entry>, p: nat, r: nat)
    requires Good(q)
    ensures Oldest(q, p) == if Level(q, p) == [] then None else Some(Level(q, p)[0])
    ensures Level(QueueAfter(q, p), r)
         == if r != p || Level(q, p) == [] then Level(q, r)
            else Level(q, p)[1..] + (if Level(q, p)[0].recurring then [Level(q, p)[0]] else [])
  {
    var n := UpTo(q, p);
    UpToSplits(q, p);
    if n > 0 && q[n - 1].prio == p {
      RemoveOldest(q, p, n - 1, r);
      var rest := RemoveAt(q, n - 1);
      if q[n - 1].item.recurring && p != IMMEDIATE {
        InsertEffect(rest, p, q[n - 1].item, r);
      }
    } else {
      assert forall i :: 0 <= i < n ==> q[i].prio <= q[n - 1].prio;
      LevelAbsent(q, p);
    }
  }

  lemma RotationKeeps(level: seq<Item>)
    requires level != []
    ensures Recurring(level[1..] + (if level[0].recurring then [level[0]] else [])) == Recurring(level)
  {
    assert level == [level[0]] + level[1..];
    RecurringCons(level[0], level[1..]);
    if level[0].recurring {
      RecurringSnoc(level[1..], level[0]);
    } else {
      assert level[1..] + [] == level[1..];
    }
  }

  lemma ServeConserves(q: seq<Entry>, p: nat, r: nat)
    requires Good(q)
    ensures Recurring(Level(QueueAfter(q, p), r)) == Recurring(Level(q, r))
  {
    ServeLevel(q, p, r);
    if r == p && Level(q, p) != [] {
      RotationKeeps(Level(q, p));
    }
  }

  /** No tick loses or gains a recurring item, on any level. */
  lemma TickConservesRecurring(env: Env, s: State, r: nat)
    requires Valid(s)
    ensures Recurring(Level(Ticked(env, s).queue, r)) == Recurring(Level(s.queue, r))
  {
    ServeConserves(s.queue, Due(env.clock, s.queue, s.counter), r);
  }

  /** All recurring items of a queue. */
  function AllRecurring(q: seq<Entry>): multiset<Item> {
    if q == [] then multiset{} else Kept(q[0].item) + AllRecurring(q[1..])
  }

  lemma {:induction false} InsertCounts(q: seq<Entry>, p: nat, x: Item)
    ensures AllRecurring(Insert(q, p, x)) == AllRecurring(q) + Kept(x)
  {
    if q == [] || q[0].prio >= p {
      assert ([Entry(p, x)] + q)[1..] == q;
    } else {
      InsertCounts(q[1..], p, x);
      assert Insert(q, p, x)[1..] == Insert(q[1..], p, x);
    }
  }

  lemma AddAssoc(a: multiset<Item>, b: multiset<Item>, c: multiset<Item>)
    ensures a + (b + c) == (a + b) + c
    ensures a + b == b + a
  {
  }

  lemma {:induction false} RemoveCounts(q: seq<Entry>, i: nat)
    requires i < |q|
    ensures AllRecurring(q) == AllRecurring(RemoveAt(q, i)) + Kept(q[i].item)
    decreases i
  {
    if i == 0 {
      assert RemoveAt(q, 0) == q[1..];
    } else {
      RemoveCounts(q[1..], i - 1);
      assert RemoveAt(q, i)[1..] == RemoveAt(q[1..], i - 1);
      AddAssoc(Kept(q[0].item), AllRecurring(RemoveAt(q[1..], i - 1)), Kept(q[i].item));
    }
  }

  /** Changing a priority moves one recurring item and loses none. */
  lemma MoveConservesRecurring(s: State, p: nat, f: Func, receiver: nat)
    ensures AllRecurring(Moved(s, p, f, receiver).queue) == AllRecurring(s.queue)
  {
    var i := FindRecurring(s.queue, f, receiver);
    if f != NoFunc && p != IMMEDIATE && i < |s.queue| {
      RemoveCounts(s.queue, i);
      InsertCounts(RemoveAt(s.queue, i), p, s.queue[i].item);
    }
  }

  // ---------------------------------------------------------------- the other operations, level by level

  lemma RequestLevels(q: seq<Entry>, x: Item, r: nat)
    ensures Level(WithRequest(q, x), r)
         == Level(q, r) + (if x.recurring && x.command != TransceiverId && r == IMMEDIATE
                           then [x.(recurring := false, param := Invalid)] else [])
  {
    InsertEffect(q, IMMEDIATE, x.(recurring := false, param := Invalid), r);
    assert Level(q, r) + [] == Level(q, r);
  }

  lemma NewestLevels(q: seq<Entry>, p: nat, x: Item, r: nat)
    ensures Level(Insert(q, p, x), r) == Level(q, r) + (if r == p then [x] else [])
  {
    InsertEffect(q, p, x, r);
    assert Level(q, r) + [] == Level(q, r);
  }

  /** What add() leaves on every level: with unique the equal entries of the item's own level are gone,
      a recurring item brings an immediate request without a value, and the item itself is the
      newest of its level. */
  lemma AddedLevels(q: seq<Entry>, p: nat, x: Item, unique: bool, r: nat)
    ensures var was := if unique && r == p then Without(Level(q, p), x) else Level(q, r);
            var companion := x.(recurring := false, param := Invalid);
            Level(Inserted(q, p, x, unique), r)
            == was + (if x.recurring && x.command != TransceiverId && r == IMMEDIATE then [companion] else [])
               + (if r == p then [x] else [])
  {
    RemoveSameEffect(q, p, x, r);
    var q1 := if unique then RemoveSame(q, p, x) else q;
    RequestLevels(q1, x, r);
    NewestLevels(WithRequest(q1, x), p, x, r);
  }

  /** del() empties the level the command recurs on first of entries equal to that one, and touches
      no other. */
  lemma DeletedLevels(s: State, f: Func, receiver: nat, r: nat)
    requires f != NoFunc && FindRecurring(s.queue, f, receiver) < |s.queue|
    ensures var first := s.queue[FindRecurring(s.queue, f, receiver)];
            && first.item.command == f && first.item.receiver == receiver && first.item.recurring
            && Level(Deleted(s, f, receiver).queue, r)
               == if r == first.prio then Without(Level(s.queue, r), first.item) else Level(s.queue, r)
  {
    var first := s.queue[FindRecurring(s.queue, f, receiver)];
    FoundIsRecurring(s.queue, f, receiver);
    RemoveSameEffect(s.queue, first.prio, first.item, r);
  }

  lemma OneMoreBehind(rest: multiset<Item>, a: seq<Item>, b: seq<Item>, tail: seq<Item>)
    requires multiset(a) == multiset(b) + rest
    ensures multiset(a + tail) == multiset(b + tail) + rest
  {
    assert multiset(a + tail) == multiset(a) + multiset(tail);
    assert multiset(b + tail) == multiset(b) + multiset(tail);
  }

  lemma {:induction false} RemoveTakesOne(q: seq<Entry>, i: nat, r: nat)
    requires i < |q|
    ensures multiset(Level(q, r))
         == multiset(Level(RemoveAt(q, i), r)) + (if r == q[i].prio then multiset{q[i].item} else multiset{})
    decreases i
  {
    if i == 0 {
      assert RemoveAt(q, 0) == q[1..];
    } else {
      RemoveTakesOne(q[1..], i - 1, r);
      assert RemoveAt(q, i)[1..] == RemoveAt(q[1..], i - 1);
      OneMoreBehind(if r == q[i].prio then multiset{q[i].item} else multiset{},
                    Level(q[1..], r), Level(RemoveAt(q[1..], i - 1), r), if q[0].prio == r then [q[0].item] else []);
    }
  }

  /** changePriority makes the entry it finds the newest of its new level, and takes it and no other
      out of its old one. */
  lemma MovedLevels(s: State, p: nat, f: Func, receiver: nat, r: nat)
    requires f != NoFunc && p != IMMEDIATE && FindRecurring(s.queue, f, receiver) < |s.queue|
    ensures var first := s.queue[FindRecurring(s.queue, f, receiver)];
            var after := Level(Moved(s, p, f, receiver).queue, r);
            && (r == p ==> after != [] && after[|after| - 1] == first.item)
            && multiset(after) + (if r == first.prio then multiset{first.item} else multiset{})
               == multiset(Level(s.queue, r)) + (if r == p then multiset{first.item} else multiset{})
  {
    var i := FindRecurring(s.queue, f, receiver);
    RemoveTakesOne(s.queue, i, r);
    InsertEffect(RemoveAt(s.queue, i), p, s.queue[i].item, r);
  }

  // ---------------------------------------------------------------- duplicates

  predicate IsRecurrence(x: Item, f: Func, receiver: nat) { x.command == f && x.receiver == receiver && x.recurring }

  /** Some item with this command and receiver recurs on level p. */
  predicate RecursAt(q: seq<Entry>, p: nat, f: Func, receiver: nat) {
    exists i :: 0 <= i < |q| && q[i].prio == p && IsRecurrence(q[i].item, f, receiver)
  }

  predicate RecursBelow(q: seq<Entry>, p: nat, f: Func, receiver: nat) {
    exists i :: 0 <= i < |q| && q[i].prio < p && IsRecurrence(q[i].item, f, receiver)
  }

  lemma {:induction false} FindsFirst(q: seq<Entry>, f: Func, receiver: nat, j: nat)
    requires j < |q| && IsRecurrence(q[j].item, f, receiver)
    ensures FindRecurring(q, f, receiver) <= j
  {
    if j > 0 {
      FindsFirst(q[1..], f, receiver, j - 1);
    }
  }

  /** The first recurrence that is found is on level p exactly when there is none below. */
  lemma FirstFoundIsLowest(q: seq<Entry>, p: nat, f: Func, receiver: nat)
    requires Sorted(q) && RecursAt(q, p, f, receiver)
    ensures FindRecurring(q, f, receiver) < |q|
    ensures RecurringLevel(q, f, receiver) == p <==> !RecursBelow(q, p, f, receiver)
  {
    var j :| 0 <= j < |q| && q[j].prio == p && IsRecurrence(q[j].item, f, receiver);
    FindsFirst(q, f, receiver, j);
    FoundIsRecurring(q, f, receiver);
    if b :| 0 <= b < |q| && q[b].prio < p && IsRecurrence(q[b].item, f, receiver) {
      FindsFirst(q, f, receiver, b);
    }
  }

  lemma {:induction false} InsertLonger(q: seq<Entry>, p: nat, x: Item)
    ensures |Insert(q, p, x)| == |q| + 1
  {
    if q != [] && q[0].prio < p {
      InsertLonger(q[1..], p, x);
    }
  }

  lemma InsertedLonger(q: seq<Entry>, p: nat, x: Item)
    ensures |Inserted(q, p, x, false)| > |q|
  {
    InsertLonger(q, IMMEDIATE, x.(recurring := false, param := Invalid));
    InsertLonger(WithRequest(q, x), p, x);
  }

  /** Adding a recurring command that already recurs on that level leaves the queue alone exactly
      when the command does not also recur on a lower-numbered level: the guard looks at the first
      entry it finds only. */
  lemma DuplicateRefusedIff(cast: Cast, s: State, p: nat, item: Item)
    requires Valid(s) && item.recurring && Available(s.caps, item.command) == item.command && Accepts(s, item)
    requires RecursAt(s.queue, p, item.command, item.receiver)
    ensures Added(cast, s, p, item, false).queue == s.queue <==> !RecursBelow(s.queue, p, item.command, item.receiver)
  {
    FirstFoundIsLowest(s.queue, p, item.command, item.receiver);
    InsertedLonger(s.queue, p, item);
  }

  function Recurrence(f: Func, receiver: nat): Item { Item(f, Invalid, receiver, true) }

  function Companion(f: Func, receiver: nat): Item { Item(f, Invalid, receiver, false) }

  /** A command put on High, then on Highest, then on High again. */
  function TwiceOnHigh(f: Func, receiver: nat): seq<Event> {
    var x := Recurrence(f, receiver);
    [SetInterval(100), Add(HIGH, x, false), Add(HIGHEST, x, false), Add(HIGH, x, false)]
  }

  predicate Ready(s: State, f: Func, receiver: nat) {
    s.interval != -1 && s.caps == None && f != NoFunc && f != TransceiverId && receiver != CURRENT
  }

  lemma FirstOnHigh(cast: Cast, s: State, f: Func, receiver: nat)
    requires Ready(s, f, receiver) && s.queue == []
    ensures var x, c := Recurrence(f, receiver), Companion(f, receiver);
            Added(cast, s, HIGH, x, false) == s.(queue := [Entry(IMMEDIATE, c), Entry(HIGH, x)])
  {
    var x, c := Recurrence(f, receiver), Companion(f, receiver);
    var q := Insert([], IMMEDIATE, c);
    assert q == [Entry(IMMEDIATE, c)] && q[1..] == [];
    assert Insert(q, HIGH, x) == [q[0]] + Insert([], HIGH, x);
  }

  lemma ThenOnHighest(cast: Cast, s: State, f: Func, receiver: nat)
    requires Ready(s, f, receiver)
    requires s.queue == [Entry(IMMEDIATE, Companion(f, receiver)), Entry(HIGH, Recurrence(f, receiver))]
    ensures var x, c := Recurrence(f, receiver), Companion(f, receiver);
            Added(cast, s, HIGHEST, x, false)
            == s.(queue := [Entry(IMMEDIATE, c), Entry(IMMEDIATE, c), Entry(HIGHEST, x), Entry(HIGH, x)])
  {
    var x, c := Recurrence(f, receiver), Companion(f, receiver);
    var first, last := [Entry(IMMEDIATE, c)], [Entry(HIGH, x)];
    assert s.queue[1..] == last;
    assert FindRecurring(last, f, receiver) == 0 && FindRecurring(s.queue, f, receiver) == 1;
    var q := Insert(s.queue, IMMEDIATE, c);
    assert q == first + s.queue && q[1..] == s.queue;
    assert Insert(last, HIGHEST, x) == [Entry(HIGHEST, x)] + last;
    assert Insert(s.queue, HIGHEST, x) == first + Insert(last, HIGHEST, x);
    assert Insert(q, HIGHEST, x) == first + Insert(s.queue, HIGHEST, x);
  }

  /** How often the command recurs on level p. */
  function Recurrences(q: seq<Entry>, p: nat, f: Func, receiver: nat): nat {
    if q == [] then 0
    else Recurrences(q[1..], p, f, receiver) + (if q[0].prio == p && IsRecurrence(q[0].item, f, receiver) then 1 else 0)
  }

  lemma OnceOnHigh(q: seq<Entry>, f: Func, receiver: nat)
    requires var x, c := Recurrence(f, receiver), Companion(f, receiver);
             q == [Entry(IMMEDIATE, c), Entry(IMMEDIATE, c), Entry(HIGHEST, x), Entry(HIGH, x)]
    ensures Level(q, HIGH) == [Recurrence(f, receiver)]
    ensures Recurrences(q, HIGH, f, receiver) == 1 && FindRecurring(q, f, receiver) == 2
  {
    var x := Recurrence(f, receiver);
    assert q[1..][1..] == q[2..] && q[2..][1..] == q[3..] && q[3..][1..] == [];
    assert Level(q[3..], HIGH) == [x] && Level(q[2..], HIGH) == [x] && Level(q[1..], HIGH) == [x];
    assert Recurrences(q[3..], HIGH, f, receiver) == 1 && Recurrences(q[2..], HIGH, f, receiver) == 1;
    assert Recurrences(q[1..], HIGH, f, receiver) == 1;
    assert FindRecurring(q[2..], f, receiver) == 0 && FindRecurring(q[1..], f, receiver) == 1;
  }

  lemma ThenAgain(cast: Cast, s: State, f: Func, receiver: nat)
    requires Ready(s, f, receiver)
    requires var x, c := Recurrence(f, receiver), Companion(f, receiver);
             s.queue == [Entry(IMMEDIATE, c), Entry(IMMEDIATE, c), Entry(HIGHEST, x), Entry(HIGH, x)]
    ensures var x := Recurrence(f, receiver); Level(Added(cast, s, HIGH, x, false).queue, HIGH) == [x, x]
  {
    var x := Recurrence(f, receiver);
    OnceOnHigh(s.queue, f, receiver);
    AddedLevels(s.queue, HIGH, x, false, HIGH);
    assert [x] + [] + [x] == [x, x];
  }

  lemma RunPrefix(env: Env, s: State, events: seq<Event>, n: nat)
    requires n < |events|
    ensures Run(env, s, events[..n + 1]) == Step(env, Run(env, s, events[..n]), events[n])
  {
    assert events[..n + 1][..n] == events[..n];
  }

  /** Such runs exist: any ordinary command comes to recur twice on High. */
  lemma DuplicateReached(env: Env, f: Func, receiver: nat)
    requires f != NoFunc && f != TransceiverId && receiver != CURRENT
    ensures var events, x, c := TwiceOnHigh(f, receiver), Recurrence(f, receiver), Companion(f, receiver);
            && Run(env, Start(), events[..3]).queue
               == [Entry(IMMEDIATE, c), Entry(IMMEDIATE, c), Entry(HIGHEST, x), Entry(HIGH, x)]
            && Level(Run(env, Start(), events).queue, HIGH) == [x, x]
  {
    var events, x, c := TwiceOnHigh(f, receiver), Recurrence(f, receiver), Companion(f, receiver);
    var s0 := Start();
    assert events[..0] == [] && Run(env, s0, events[..0]) == s0;
    RunPrefix(env, s0, events, 0);
    var s1 := s0.(interval := 100);
    assert Run(env, s0, events[..1]) == s1;
    RunPrefix(env, s0, events, 1);
    var q2 := [Entry(IMMEDIATE, c), Entry(HIGH, x)];
    FirstOnHigh(env.cast, s1, f, receiver);
    RunPrefix(env, s0, events, 2);
    ThenOnHighest(env.cast, s1.(queue := q2), f, receiver);
    RunPrefix(env, s0, events, 3);
    assert events[..4] == events;
    var q3 := [Entry(IMMEDIATE, c), Entry(IMMEDIATE, c), Entry(HIGHEST, x), Entry(HIGH, x)];
    ThenAgain(env.cast, s1.(queue := q2).(queue := q3), f, receiver);
  }

  lemma {:induction false} RecursIfCounted(q: seq<Entry>, p: nat, f: Func, receiver: nat)
    ensures RecursAt(q, p, f, receiver) <==> Recurrences(q, p, f, receiver) > 0
  {
    if q != [] {
      RecursIfCounted(q[1..], p, f, receiver);
      assert forall i :: 1 <= i < |q| ==> q[i] == q[1..][i - 1];
    }
  }

  lemma {:induction false} InsertRecurs(q: seq<Entry>, prio: nat, x: Item, p: nat, f: Func, receiver: nat)
    ensures Recurrences(Insert(q, prio, x), p, f, receiver)
         == Recurrences(q, p, f, receiver) + (if prio == p && IsRecurrence(x, f, receiver) then 1 else 0)
  {
    if q == [] || q[0].prio >= prio {
      assert ([Entry(prio, x)] + q)[1..] == q;
    } else {
      InsertRecurs(q[1..], prio, x, p, f, receiver);
    }
  }

  lemma {:induction false} RemoveRecurs(q: seq<Entry>, i: nat, p: nat, f: Func, receiver: nat)
    requires i < |q|
    ensures Recurrences(q, p, f, receiver) == Recurrences(RemoveAt(q, i), p, f, receiver)
         + (if q[i].prio == p && IsRecurrence(q[i].item, f, receiver) then 1 else 0)
    decreases i
  {
    if i == 0 {
      assert RemoveAt(q, 0) == q[1..];
    } else {
      RemoveRecurs(q[1..], i - 1, p, f, receiver);
      assert RemoveAt(q, i)[1..] == RemoveAt(q[1..], i - 1);
    }
  }

  /** changePriority puts one more recurrence on its new level unless the first it finds is there
      already, without looking what else is there. */
  lemma MoveAddsOne(s: State, p: nat, f: Func, receiver: nat)
    requires f != NoFunc && p != IMMEDIATE
    ensures Recurrences(Moved(s, p, f, receiver).queue, p, f, receiver) == Recurrences(s.queue, p, f, receiver)
         + (if FindRecurring(s.queue, f, receiver) < |s.queue| && RecurringLevel(s.queue, f, receiver) != p
            then 1 else 0)
  {
    var i := FindRecurring(s.queue, f, receiver);
    FoundIsRecurring(s.queue, f, receiver);
    if i < |s.queue| {
      RemoveRecurs(s.queue, i, p, f, receiver);
      InsertRecurs(RemoveAt(s.queue, i), p, s.queue[i].item, p, f, receiver);
    }
  }

  /** So a command comes to recur twice on that level exactly when it recurred there once and on a
      lower-numbered level too. */
  lemma MoveDuplicatesIff(s: State, p: nat, f: Func, receiver: nat)
    requires Valid(s) && f != NoFunc && p != IMMEDIATE && Recurrences(s.queue, p, f, receiver) <= 1
    ensures Recurrences(Moved(s, p, f, receiver).queue, p, f, receiver) == 2
       <==> RecursAt(s.queue, p, f, receiver) && RecursBelow(s.queue, p, f, receiver)
    ensures Recurrences(Moved(s, p, f, receiver).queue, p, f, receiver) <= 2
  {
    MoveAddsOne(s, p, f, receiver);
    RecursIfCounted(s.queue, p, f, receiver);
    if RecursAt(s.queue, p, f, receiver) {
      FirstFoundIsLowest(s.queue, p, f, receiver);
    }
  }

  /** Such runs exist too: put on High, then on Highest, then moved to High. */
  lemma MoveDuplicates(env: Env, f: Func, receiver: nat)
    requires f != NoFunc && f != TransceiverId && receiver != CURRENT
    ensures var events := TwiceOnHigh(f, receiver)[..3] + [ChangePriority(HIGH, f, receiver)];
            Recurrences(Run(env, Start(), events).queue, HIGH, f, receiver) == 2
  {
    var events := TwiceOnHigh(f, receiver)[..3] + [ChangePriority(HIGH, f, receiver)];
    var s := Run(env, Start(), events[..3]);
    assert events[..3] == TwiceOnHigh(f, receiver)[..3] && events[..4] == events;
    DuplicateReached(env, f, receiver);
    RunPrefix(env, Start(), events, 3);
    OnceOnHigh(s.queue, f, receiver);
    MoveAddsOne(s, HIGH, f, receiver);
  }

  // ---------------------------------------------------------------- turns

  /** The counter after n ticks without an immediate command. */
  function After(k: Clock, c: nat, n: nat): nat {
    if n == 0 then c else k.step(After(k, c, n - 1))
  }

  /** How many of those ticks are level p's. */
  function Turns(k: Clock, c: nat, n: nat, p: nat): nat {
    if n == 0 then 0 else Turns(k, c, n - 1, p) + (if k.turn(After(k, c, n - 1)) == p then 1 else 0)
  }

  lemma {:induction false} TurnsSplit(k: Clock, c: nat, m: nat, n: nat, p: nat)
    ensures After(k, c, m + n) == After(k, After(k, c, m), n)
    ensures Turns(k, c, m + n, p) == Turns(k, c, m, p) + Turns(k, After(k, c, m), n, p)
  {
    if n > 0 {
      TurnsSplit(k, c, m, n - 1, p);
    }
  }

  const CYCLE := 22

  /** From 2 to 23 the counter goes up by one, and after 23 starts over. */
  ghost predicate Cyclic(k: Clock) {
    forall c :: 2 <= c <= 23 ==> k.step(c) == if c == 23 then 2 else c + 1
  }

  /** Turns of level p among the counter values below c. */
  function Before(k: Clock, c: nat, p: nat): nat {
    if c <= 2 then 0 else Before(k, c - 1, p) + (if k.turn(c - 1) == p then 1 else 0)
  }

  lemma {:induction false} WithinCycle(k: Clock, c: nat, n: nat, p: nat)
    requires Cyclic(k) && 2 <= c && c + n <= 24
    ensures n > 0 ==> After(k, c, n) == if c + n == 24 then 2 else c + n
    ensures Turns(k, c, n, p) == Before(k, c + n, p) - Before(k, c, p)
  {
    if n > 0 {
      WithinCycle(k, c, n - 1, p);
    }
  }

  lemma RoundTheCycle(k: Clock, c: nat, m: nat, n: nat, p: nat)
    requires Cyclic(k) && 2 <= c <= 23 && m == 24 - c && n == c - 2
    ensures After(k, c, m + n) == c && Turns(k, c, m + n, p) == Before(k, 24, p)
  {
    WithinCycle(k, c, m, p);
    WithinCycle(k, 2, n, p);
    TurnsSplit(k, c, m, n, p);
  }

  /** Wherever in the cycle it starts, 22 ticks end where they began. */
  lemma OneCycle(k: Clock, c: nat, p: nat)
    requires Cyclic(k) && 2 <= c <= 23
    ensures After(k, c, CYCLE) == c && Turns(k, c, CYCLE, p) == Before(k, 24, p)
  {
    RoundTheCycle(k, c, 24 - c, c - 2, p);
  }

  lemma {:induction false} ManyCycles(k: Clock, c: nat, m: nat, p: nat)
    requires Cyclic(k) && 2 <= c <= 23
    ensures After(k, c, CYCLE * m) == c && Turns(k, c, CYCLE * m, p) == Before(k, 24, p) * m
  {
    if m > 0 {
      ManyCycles(k, c, m - 1, p);
      OneCycle(k, c, p);
      TurnsSplit(k, c, CYCLE * (m - 1), CYCLE, p);
      assert CYCLE * m == CYCLE * (m - 1) + CYCLE;
      var share := Before(k, 24, p);
      assert share * m == share * (m - 1) + share;
    }
  }

  /** The turns of each level in one cycle; two of the 22 are nobody's. */
  function Share(p: nat): nat {
    if p == HIGHEST then 11 else if p == HIGH then 4
    else if p == MEDIUM_HIGH || p == MEDIUM || p == MEDIUM_LOW || p == LOW || p == LOWEST then 1
    else if p == IMMEDIATE then 2
    else 0
  }

  /** Turns of level p among the counter values from 2 up to c, in closed form. */
  function Count(c: nat, p: nat): nat {
    if c == 0 then 0
    else if p == HIGHEST then (c - 1) / 2
    else if p == HIGH then (c + 2) / 6
    else if p == IMMEDIATE then (if c > 17 then 2 else if c > 13 then 1 else 0)
    else if Share(p) == 1 && c > p then 1
    else 0
  }

  const LEVELS := {HIGHEST, HIGH, MEDIUM_HIGH, MEDIUM, MEDIUM_LOW, LOW, LOWEST}

  /** At any counter value it is the turn of the level with the least number that divides it, and nobody's
      when none does, that is when it is prime to 2, 3, 5, 7, 11, 19 and 23. */
  lemma TurnIsLeastDivisor(c: nat)
    ensures Turn(c) != IMMEDIATE ==> Turn(c) in LEVELS && c % Turn(c) == 0
    ensures forall p :: p in LEVELS && c % p == 0 ==> 1 < Turn(c) <= p
    ensures Turn(c) == 1 <==> forall d :: d in {2, 3, 5, 7, 11, 19, 23} ==> c % d != 0
  {
    assert 2 in LEVELS && 3 in LEVELS && 5 in LEVELS && 7 in LEVELS && 11 in LEVELS && 19 in LEVELS && 23 in LEVELS;
    assert LEVELS == {2, 3, 5, 7, 11, 19, 23};
  }

  lemma TurnIs(c: nat)
    requires 2 <= c <= 23
    ensures Turn(c) == if c % 2 == 0 then HIGHEST else if c % 3 == 0 then HIGH
                       else if c == 13 || c == 17 then IMMEDIATE else c
  {
  }

  lemma CountHighest(c: nat)
    requires 2 < c <= 24
    ensures Count(c, HIGHEST) == Count(c - 1, HIGHEST) + (if Turn(c - 1) == HIGHEST then 1 else 0)
  {
    TurnIs(c - 1);
  }

  lemma CountHigh(c: nat)
    requires 2 < c <= 24
    ensures Count(c, HIGH) == Count(c - 1, HIGH) + (if Turn(c - 1) == HIGH then 1 else 0)
  {
    TurnIs(c - 1);
  }

  lemma {:induction false} CountIs(c: nat, p: nat)
    requires 2 <= c <= 24
    ensures Before(RIG, c, p) == Count(c, p)
  {
    if c > 2 {
      CountIs(c - 1, p);
      if p == HIGHEST {
        CountHighest(c);
      } else if p == HIGH {
        CountHigh(c);
      } else {
        TurnIs(c - 1);
      }
    }
  }

  lemma RigCyclic()
    ensures Cyclic(RIG)
  {
    forall c | 2 <= c <= 23
      ensures Advance(c) == if c == 23 then 2 else c + 1
    {
      TurnIs(c);
    }
  }

  /** Each level gets its share of every 22 ticks, wherever in the cycle they start. */
  lemma FairShares(c: nat, m: nat, p: nat)
    requires 2 <= c <= 23
    ensures After(RIG, c, CYCLE * m) == c && Turns(RIG, c, CYCLE * m, p) == Share(p) * m
  {
    RigCyclic();
    ManyCycles(RIG, c, m, p);
    CountIs(24, p);
  }

  // ---------------------------------------------------------------- first in, first out

  /** No item of the level is one that remove() would take for x. */
  predicate NoneSame(items: seq<Item>, x: Item) {
    items != [] ==> NoneSame(items[..|items| - 1], x) && !Same(items[|items| - 1], x)
  }

  /** An event that takes nothing out of level p, unless it is a tick. */
  predicate KeepsWaiting(s: State, e: Event, p: nat) {
    match e
    case Add(prio, item, unique) =>
      unique && prio == p ==> NoneSame(Level(s.queue, p), item.(command := Available(s.caps, item.command)))
    case Delete(f, receiver) => RecurringLevel(s.queue, f, receiver) != p
    case ChangePriority(_, f, receiver) => RecurringLevel(s.queue, f, receiver) != p
    case Clear => false
    case _ => true
  }

  predicate AllKeepWaiting(env: Env, s: State, events: seq<Event>, p: nat) {
    events == [] ||
    (var init := events[..|events| - 1];
     AllKeepWaiting(env, s, init, p) && KeepsWaiting(Run(env, s, init), events[|events| - 1], p))
  }

  /** A tick that finds an immediate command, which goes before every level. */
  predicate Hit(s: State, e: Event) { e.Tick? && Contains(s.queue, IMMEDIATE) }

  function Hits(env: Env, s: State, events: seq<Event>): nat {
    if events == [] then 0
    else
      var init := events[..|events| - 1];
      Hits(env, s, init) + (if Hit(Run(env, s, init), events[|events| - 1]) then 1 else 0)
  }

  /** What one event dispatches from it. */
  function SentBy(env: Env, s: State, e: Event, p: nat): seq<Item> {
    var sent := Dispatched(env.clock, s);
    if e.Tick? && Due(env.clock, s.queue, s.counter) == p && sent.Some? then [sent.value] else []
  }

  /** What a run dispatches from level p. */
  function Sent(env: Env, s: State, events: seq<Event>, p: nat): seq<Item> {
    if events == [] then []
    else
      var init := events[..|events| - 1];
      Sent(env, s, init, p) + SentBy(env, Run(env, s, init), events[|events| - 1], p)
  }

  function Ticks(events: seq<Event>): nat {
    if events == [] then 0 else Ticks(events[..|events| - 1]) + (if events[|events| - 1].Tick? then 1 else 0)
  }

  lemma {:induction false} WithoutNone(items: seq<Item>, x: Item)
    requires NoneSame(items, x)
    ensures Without(items, x) == items
  {
    if items != [] {
      WithoutNone(items[..|items| - 1], x);
    }
  }

  lemma InsertedAppends(q: seq<Entry>, prio: nat, x: Item, unique: bool, p: nat)
    requires p != IMMEDIATE && (unique && prio == p ==> NoneSame(Level(q, p), x))
    ensures Level(q, p) <= Level(Inserted(q, prio, x, unique), p)
  {
    RemoveSameEffect(q, prio, x, p);
    if unique && prio == p {
      WithoutNone(Level(q, p), x);
    }
    var q1 := if unique then RemoveSame(q, prio, x) else q;
    RequestLevels(q1, x, p);
    NewestLevels(WithRequest(q1, x), prio, x, p);
  }

  lemma {:induction false} RemoveElsewhere(q: seq<Entry>, i: nat, p: nat)
    requires i < |q| && q[i].prio != p
    ensures Level(RemoveAt(q, i), p) == Level(q, p)
    decreases i
  {
    if i == 0 {
      assert RemoveAt(q, 0) == q[1..];
      assert Level(q[1..], p) + [] == Level(q[1..], p);
    } else {
      RemoveElsewhere(q[1..], i - 1, p);
      assert RemoveAt(q, i)[1..] == RemoveAt(q[1..], i - 1);
    }
  }

  /** Events other than ticks only ever append to level p. */
  lemma OtherEventsAppend(env: Env, s: State, e: Event, p: nat)
    requires p != IMMEDIATE && !e.Tick? && KeepsWaiting(s, e, p)
    ensures Level(s.queue, p) <= Level(Step(env, s, e).queue, p)
  {
    match e
    case Add(prio, item, unique) =>
      InsertedAppends(s.queue, prio, item.(command := Available(s.caps, item.command)), unique, p);
    case Delete(f, receiver) =>
      var i := FindRecurring(s.queue, f, receiver);
      if i < |s.queue| {
        RemoveSameEffect(s.queue, s.queue[i].prio, s.queue[i].item, p);
      }
    case ChangePriority(newPrio, f, receiver) =>
      var i := FindRecurring(s.queue, f, receiver);
      if i < |s.queue| {
        RemoveElsewhere(s.queue, i, p);
        InsertEffect(RemoveAt(s.queue, i), newPrio, s.queue[i].item, p);
      }
    case _ =>
  }

  lemma ServeAndKeep(q: seq<Entry>, due: nat, p: nat)
    requires Good(q)
    ensures var sent := if due == p && Oldest(q, due).Some? then [Oldest(q, due).value] else [];
            && Level(q, p) <= sent + Level(QueueAfter(q, due), p)
            && (due == p && Level(q, p) != [] ==> |sent| == 1)
  {
    ServeLevel(q, due, p);
    var level := Level(q, p);
    if due == p && level != [] {
      assert level == [level[0]] + level[1..];
    }
  }

  predicate TurnOf(env: Env, s: State, e: Event, p: nat) { e.Tick? && Due(env.clock, s.queue, s.counter) == p }

  /** One event of such a run. */
  lemma EventKeepsOrder(env: Env, s: State, e: Event, p: nat)
    requires Valid(s) && p != IMMEDIATE && KeepsWaiting(s, e, p)
    ensures Level(s.queue, p) <= SentBy(env, s, e, p) + Level(Step(env, s, e).queue, p)
    ensures TurnOf(env, s, e, p) && Level(s.queue, p) != [] ==> |SentBy(env, s, e, p)| == 1
  {
    if e.Tick? {
      ServeAndKeep(s.queue, Due(env.clock, s.queue, s.counter), p);
    } else {
      OtherEventsAppend(env, s, e, p);
    }
  }

  /** As many have gone as there were turns, unless all of the first have. */
  predicate Served(sent: seq<Item>, turns: nat, first: seq<Item>) {
    |sent| >= turns || |sent| >= |first|
  }

  lemma Chain(first: seq<Item>, sent: seq<Item>, level: seq<Item>, more: seq<Item>, next: seq<Item>,
              turns: nat, turn: bool)
    requires first <= sent + level && level <= more + next && Served(sent, turns, first)
    requires turn && level != [] ==> |more| == 1
    ensures first <= (sent + more) + next
    ensures Served(sent + more, turns + (if turn then 1 else 0), first)
  {
    assert (sent + more) + next == sent + (more + next);
    assert level == [] ==> |sent| >= |first|;
  }

  function TurnsTaken(env: Env, s: State, events: seq<Event>, p: nat): nat {
    if events == [] then 0
    else
      var init := events[..|events| - 1];
      TurnsTaken(env, s, init, p) + (if TurnOf(env, Run(env, s, init), events[|events| - 1], p) then 1 else 0)
  }

  /** What has been sent and what is still waiting starts with what was waiting at first; and as
      many items have gone as the level had turns, unless all of those have. */
  lemma {:induction false} FirstInFirstOut(env: Env, s: State, events: seq<Event>, p: nat)
    requires Valid(s) && p != IMMEDIATE && AllKeepWaiting(env, s, events, p)
    ensures Level(s.queue, p) <= Sent(env, s, events, p) + Level(Run(env, s, events).queue, p)
    ensures Served(Sent(env, s, events, p), TurnsTaken(env, s, events, p), Level(s.queue, p))
  {
    if events != [] {
      var init, e := events[..|events| - 1], events[|events| - 1];
      FirstInFirstOut(env, s, init, p);
      ReachableIsValid(env, s, init);
      var now := Run(env, s, init);
      EventKeepsOrder(env, now, e, p);
      Chain(Level(s.queue, p), Sent(env, s, init, p), Level(now.queue, p), SentBy(env, now, e, p),
            Level(Step(env, now, e).queue, p), TurnsTaken(env, s, init, p), TurnOf(env, now, e, p));
    }
  }

  lemma Prefix(level: seq<Item>, sent: seq<Item>, rest: seq<Item>, d: nat)
    requires level <= sent + rest && d <= |level| && d <= |sent|
    ensures sent[..d] == level[..d]
  {
    var all := sent + rest;
    assert level == all[..|level|];
    assert sent[..d] == all[..d] == level[..d];
  }

  // ---------------------------------------------------------------- the lowest level

  /** Of four such numbers, at most one is a multiple of q. */
  lemma OneMultiple(b: nat, q: nat)
    requires q == 7 || q == 11 || q == 19
    ensures (b + 1) % q == 0 ==> (b + 7) % q != 0 && (b + 11) % q != 0 && (b + 13) % q != 0
    ensures (b + 7) % q == 0 ==> (b + 11) % q != 0 && (b + 13) % q != 0
    ensures (b + 11) % q == 0 ==> (b + 13) % q != 0
  {
  }

  predicate Unshared(m: nat) {
    m % 2 != 0 && m % 3 != 0 && m % 5 != 0 && m % 7 != 0 && m % 11 != 0 && m % 19 != 0
  }

  predicate Usable(m: nat) { m % 7 != 0 && m % 11 != 0 && m % 19 != 0 }

  lemma UsableInBlock(b: nat) returns (m: nat)
    ensures (m == b + 1 || m == b + 7 || m == b + 11 || m == b + 13) && Usable(m)
  {
    OneMultiple(b, 7);
    OneMultiple(b, 11);
    OneMultiple(b, 19);
    m := if Usable(b + 1) then b + 1 else if Usable(b + 7) then b + 7 else if Usable(b + 11) then b + 11 else b + 13;
  }

  lemma UnsharedInBlock(k: nat) returns (m: nat)
    ensures 30 * k < m <= 30 * k + 13 && Unshared(m)
  {
    m := UsableInBlock(30 * k);
  }

  lemma StaysPrimeToTwo(m: nat)
    requires m % 2 != 0 && m % 3 != 0
    ensures (LOWEST * m) % 2 != 0 && (LOWEST * m) % 3 != 0
  {
  }

  lemma StaysPrimeToFive(m: nat)
    requires m % 5 != 0 && m % 7 != 0
    ensures (LOWEST * m) % 5 != 0 && (LOWEST * m) % 7 != 0
  {
  }

  lemma StaysPrimeToEleven(m: nat)
    requires m % 11 != 0
    ensures (LOWEST * m) % 11 != 0
  {
  }

  lemma StaysPrimeToNineteen(m: nat)
    requires m % 19 != 0
    ensures (LOWEST * m) % 19 != 0
  {
  }

  lemma UnsharedIsLowest(m: nat)
    requires Unshared(m)
    ensures Turn(LOWEST * m) == LOWEST
  {
    StaysPrimeToTwo(m);
    StaysPrimeToFive(m);
    StaysPrimeToEleven(m);
    StaysPrimeToNineteen(m);
    assert (LOWEST * m) % LOWEST == 0;
  }

  /** The counter goes up by one wherever it is not the lowest level's turn. */
  ghost predicate Climbs(k: Clock) {
    && (forall c :: 0 <= c < 0xFFFF && k.turn(c) != LOWEST ==> k.step(c) == c + 1)
    && (k.turn(0xFFFF) != LOWEST ==> k.step(0xFFFF) == 0)
  }

  lemma {:induction false} CountUp(k: Clock, c: nat, g: nat) returns (n: nat)
    requires Climbs(k) && c <= g < 0x1_0000
    ensures n <= g - c
    ensures k.turn(After(k, c, n)) == LOWEST || (n == g - c && After(k, c, n) == g)
    decreases g - c
  {
    if c == g || k.turn(c) == LOWEST {
      n := 0;
    } else {
      n := CountUp(k, c + 1, g);
      TurnsSplit(k, c, 1, n, 0);
      assert After(k, c, 0) == c && After(k, c, 1) == c + 1;
      n := n + 1;
    }
  }

  ghost predicate Wraps(k: Clock) { forall c :: k.step(c) < 0x1_0000 }

  lemma RigWraps()
    ensures Wraps(RIG)
  {
    assert forall c :: RIG.step(c) == Advance(c);
  }

  lemma StepFits(env: Env, s: State, e: Event)
    requires Wraps(env.clock) && s.counter < 0x1_0000
    ensures Step(env, s, e).counter < 0x1_0000
  {
  }

  lemma {:induction false} CounterStays(env: Env, s: State, events: seq<Event>)
    requires Wraps(env.clock) && s.counter < 0x1_0000
    ensures Run(env, s, events).counter < 0x1_0000
  {
    if events != [] {
      CounterStays(env, s, events[..|events| - 1]);
      StepFits(env, Run(env, s, events[..|events| - 1]), events[|events| - 1]);
    }
  }

  /** The counter never leaves its sixteen bits. */
  lemma CounterFits(env: Env, s: State, events: seq<Event>)
    requires env.clock == RIG && s.counter < 0x1_0000
    ensures Run(env, s, events).counter < 0x1_0000
  {
    RigWraps();
    CounterStays(env, s, events);
  }

  /** By way of g, or around by way of 0. */
  lemma Reaches(k: Clock, c: nat, g: nat) returns (n: nat)
    requires Climbs(k) && c <= g && c < 0x1_0000 && k.turn(LOWEST) == LOWEST
    requires g < 0x1_0000 ==> k.turn(g) == LOWEST
    ensures n <= g - c + LOWEST && k.turn(After(k, c, n)) == LOWEST
  {
    if g < 0x1_0000 {
      n := CountUp(k, c, g);
    } else {
      n := CountUp(k, c, 0xFFFF);
      if k.turn(After(k, c, n)) != LOWEST {
        assert After(k, c, n + 1) == 0;
        var again := CountUp(k, 0, LOWEST);
        TurnsSplit(k, c, n + 1, again, 0);
        n := n + 1 + again;
      }
    }
  }

  const LONGEST := 1040

  /** From any 16-bit counter value the lowest level has its turn within 1040 ticks, and from then
      on the counter keeps to its cycle. */
  lemma LowestIsReached(c: nat) returns (n: nat)
    requires c < 0x1_0000
    ensures n < LONGEST && Turn(After(RIG, c, n)) == LOWEST && After(RIG, c, n + 1) == 2
  {
    var q := c / LOWEST;
    var m := UnsharedInBlock(q / 30 + 1);
    UnsharedIsLowest(m);
    n := Reaches(RIG, c, LOWEST * m);
  }

  // ---------------------------------------------------------------- bounded waiting

  /** n ticks since the counter was c without an immediate command, and the turns of the level in them. */
  predicate Stretch(k: Clock, counter: nat, taken: nat, p: nat, c: nat, n: nat) {
    c < 0x1_0000 && counter == After(k, c, n) && taken >= Turns(k, c, n, p)
  }

  lemma StretchOn(env: Env, s: State, e: Event, taken: nat, p: nat, c: nat, n: nat, counter: nat, more: nat, m: nat)
    requires !Hit(s, e) && Stretch(env.clock, s.counter, taken, p, c, n) && m == if e.Tick? then n + 1 else n
    requires counter == Step(env, s, e).counter && more == taken + (if TurnOf(env, s, e, p) then 1 else 0)
    ensures Stretch(env.clock, counter, more, p, c, m)
  {
  }

  /** Some stretch was of length enough. */
  ghost predicate HadEnough(k: Clock, taken: nat, p: nat, enough: nat) {
    exists c: nat, n: nat :: c < 0x1_0000 && n >= enough && taken >= Turns(k, c, n, p)
  }

  /** As long as none was, the ticks are bounded by the stretches. */
  ghost predicate Bounded(k: Clock, taken: nat, p: nat, enough: nat, ticks: nat, hits: nat, n: nat) {
    ticks <= hits * enough + n || HadEnough(k, taken, p, enough)
  }

  lemma StretchEnds(k: Clock, counter: nat, taken: nat, p: nat, enough: nat, ticks: nat, hits: nat, c: nat, n: nat)
    requires Stretch(k, counter, taken, p, c, n) && Bounded(k, taken, p, enough, ticks, hits, n)
    ensures Bounded(k, taken, p, enough, ticks + 1, hits + 1, 0)
  {
    assert (hits + 1) * enough == hits * enough + enough;
  }

  lemma StretchGrows(k: Clock, taken: nat, more: nat, p: nat, enough: nat, ticks: nat, tick: nat, hits: nat, n: nat)
    requires Bounded(k, taken, p, enough, ticks, hits, n) && taken <= more
    ensures Bounded(k, more, p, enough, ticks + tick, hits, n + tick)
  {
    if HadEnough(k, taken, p, enough) {
      var c: nat, l: nat :| c < 0x1_0000 && l >= enough && taken >= Turns(k, c, l, p);
      assert more >= Turns(k, c, l, p);
    }
  }

  /** Where a run stands: in a stretch that began at c, n ticks ago. */
  ghost predicate Stands(k: Clock, counter: nat, taken: nat, p: nat, enough: nat, ticks: nat, hits: nat, c: nat,
                         n: nat) {
    Stretch(k, counter, taken, p, c, n) && Bounded(k, taken, p, enough, ticks, hits, n)
  }

  lemma StandsAtFirst(k: Clock, counter: nat, p: nat, enough: nat)
    requires counter < 0x1_0000
    ensures Stands(k, counter, 0, p, enough, 0, 0, counter, 0)
  {
    assert Bounded(k, 0, p, enough, 0, 0, 0);
  }

  lemma RunNext(env: Env, s: State, events: seq<Event>, p: nat)
    requires events != []
    ensures var init, e := events[..|events| - 1], events[|events| - 1]; var now := Run(env, s, init);
            && Run(env, s, events).counter == Step(env, now, e).counter
            && TurnsTaken(env, s, events, p) == TurnsTaken(env, s, init, p) + (if TurnOf(env, now, e, p) then 1 else 0)
            && Ticks(events) == Ticks(init) + (if e.Tick? then 1 else 0)
            && Hits(env, s, events) == Hits(env, s, init) + (if Hit(now, e) then 1 else 0)
  {
  }

  lemma StretchStep(env: Env, s: State, e: Event, taken: nat, p: nat, enough: nat, ticks: nat, hits: nat, c: nat,
                    n: nat,
                    counter: nat, more: nat, moreTicks: nat, moreHits: nat)
    returns (d: nat, l: nat)
    requires p != IMMEDIATE && Stands(env.clock, s.counter, taken, p, enough, ticks, hits, c, n)
    requires counter == Step(env, s, e).counter && more == taken + (if TurnOf(env, s, e, p) then 1 else 0)
    requires moreTicks == ticks + (if e.Tick? then 1 else 0) && moreHits == hits + (if Hit(s, e) then 1 else 0)
    ensures Stands(env.clock, counter, more, p, enough, moreTicks, moreHits, d, l)
  {
    if Hit(s, e) {
      StretchEnds(env.clock, s.counter, taken, p, enough, ticks, hits, c, n);
      d, l := Increment(s.counter), 0;
    } else {
      StretchOn(env, s, e, taken, p, c, n, counter, more, if e.Tick? then n + 1 else n);
      StretchGrows(env.clock, taken, more, p, enough, ticks,
                   if e.Tick? then 1 else 0, hits, n);
      d, l := c, n + (if e.Tick? then 1 else 0);
    }
  }

  /** A tick that finds nothing immediate adds to the stretch; one that does begins another. */
  lemma {:induction false} LastStretch(env: Env, s: State, events: seq<Event>, p: nat, enough: nat)
    returns (c: nat, n: nat)
    requires s.counter < 0x1_0000 && p != IMMEDIATE
    ensures Stands(env.clock, Run(env, s, events).counter, TurnsTaken(env, s, events, p), p, enough,
                   Ticks(events), Hits(env, s, events), c, n)
  {
    if events == [] {
      c, n := s.counter, 0;
      StandsAtFirst(env.clock, s.counter, p, enough);
    } else {
      var init, e := events[..|events| - 1], events[|events| - 1];
      c, n := LastStretch(env, s, init, p, enough);
      RunNext(env, s, events, p);
      c, n := StretchStep(env, Run(env, s, init), e, TurnsTaken(env, s, init, p), p, enough,
                          Ticks(init), Hits(env, s, init), c, n, Run(env, s, events).counter,
                          TurnsTaken(env, s, events, p), Ticks(events), Hits(env, s, events));
    }
  }

  lemma EnoughInCycle(c: nat, n: nat, m: nat, p: nat)
    requires 2 <= c <= 23 && n >= CYCLE * m
    ensures Turns(RIG, c, n, p) >= Share(p) * m
  {
    FairShares(c, m, p);
    TurnsSplit(RIG, c, CYCLE * m, n - CYCLE * m, p);
  }

  /** Any n ticks from the same or a later counter value. */
  lemma LaterTurns(k: Clock, c: nat, n: nat, m: nat, p: nat)
    requires m <= n
    ensures Turns(k, c, n, p) >= Turns(k, After(k, c, m), n - m, p)
  {
    TurnsSplit(k, c, m, n - m, p);
  }

  /** From any counter value, once the counter is back in its cycle. */
  lemma EnoughTurns(c: nat, n: nat, m: nat, p: nat)
    requires c < 0x1_0000 && n >= LONGEST + CYCLE * m
    ensures Turns(RIG, c, n, p) >= Share(p) * m
  {
    var r := LowestIsReached(c);
    LaterTurns(RIG, c, n, r + 1, p);
    EnoughInCycle(2, n - (r + 1), m, p);
  }

  ghost predicate Prompt(k: Clock, p: nat, enough: nat, turns: nat) {
    forall c: nat, n: nat :: c < 0x1_0000 && n >= enough ==> Turns(k, c, n, p) >= turns
  }

  lemma RigPrompt(p: nat, m: nat)
    ensures Prompt(RIG, p, LONGEST + CYCLE * m, Share(p) * m)
  {
    forall c: nat, n: nat | c < 0x1_0000 && n >= LONGEST + CYCLE * m ensures Turns(RIG, c, n, p) >= Share(p) * m {
      EnoughTurns(c, n, m, p);
    }
  }

  /** A stretch of this length for each tick that was a hit, and one more. */
  predicate Plenty(ticks: nat, hits: nat, enough: nat) { ticks >= (hits + 1) * enough }

  lemma LongEnough(k: Clock, counter: nat, taken: nat, p: nat, enough: nat, turns: nat, ticks: nat, hits: nat, c: nat,
                   n: nat)
    requires Stands(k, counter, taken, p, enough, ticks, hits, c, n)
    requires Prompt(k, p, enough, turns) && Plenty(ticks, hits, enough)
    ensures taken >= turns
  {
    assert (hits + 1) * enough == hits * enough + enough;
    if HadEnough(k, taken, p, enough) {
      var d: nat, l: nat :| d < 0x1_0000 && l >= enough && taken >= Turns(k, d, l, p);
    }
  }

  /** So many ticks give the level its turns. */
  lemma TurnsCome(env: Env, s: State, events: seq<Event>, p: nat, enough: nat, turns: nat)
    requires s.counter < 0x1_0000 && p != IMMEDIATE && Prompt(env.clock, p, enough, turns)
    requires Plenty(Ticks(events), Hits(env, s, events), enough)
    ensures TurnsTaken(env, s, events, p) >= turns
  {
    var c, n := LastStretch(env, s, events, p, enough);
    LongEnough(env.clock, Run(env, s, events).counter, TurnsTaken(env, s, events, p), p, enough, turns,
               Ticks(events), Hits(env, s, events), c, n);
  }

  /** Bounded waiting: in any run in which i ticks find an immediate command, from any counter,
      (i + 1) * (1040 + 22 * m) ticks suffice for a level to send its share times m of the items that
      were waiting, oldest first, whatever is added meanwhile. */
  lemma BoundedWaiting(env: Env, s: State, events: seq<Event>, p: nat, d: nat, m: nat)
    requires env.clock == RIG && Valid(s) && s.counter < 0x1_0000
    requires p != IMMEDIATE && AllKeepWaiting(env, s, events, p)
    requires d <= |Level(s.queue, p)| && d <= Share(p) * m
    requires Ticks(events) >= (Hits(env, s, events) + 1) * (LONGEST + CYCLE * m)
    ensures d <= |Sent(env, s, events, p)| && Sent(env, s, events, p)[..d] == Level(s.queue, p)[..d]
  {
    FirstInFirstOut(env, s, events, p);
    RigPrompt(p, m);
    TurnsCome(env, s, events, p, LONGEST + CYCLE * m, Share(p) * m);
    Prefix(Level(s.queue, p), Sent(env, s, events, p), Level(Run(env, s, events).queue, p), d);
  }

  lemma {:induction false} OneStretch(env: Env, s: State, events: seq<Event>, p: nat)
    requires s.counter < 0x1_0000 && Hits(env, s, events) == 0
    ensures Stretch(env.clock, Run(env, s, events).counter, TurnsTaken(env, s, events, p), p, s.counter, Ticks(events))
  {
    if events != [] {
      var init, e := events[..|events| - 1], events[|events| - 1];
      OneStretch(env, s, init, p);
      RunNext(env, s, events, p);
      StretchOn(env, Run(env, s, init), e, TurnsTaken(env, s, init, p), p, s.counter, Ticks(init),
                Run(env, s, events).counter, TurnsTaken(env, s, events, p), Ticks(events));
    }
  }

  /** With the counter in its cycle and nothing immediate, 22 * m ticks do. */
  lemma CalmWaiting(env: Env, s: State, events: seq<Event>, p: nat, d: nat, m: nat)
    requires env.clock == RIG && Valid(s) && 2 <= s.counter <= 23
    requires p != IMMEDIATE && AllKeepWaiting(env, s, events, p) && Hits(env, s, events) == 0
    requires d <= |Level(s.queue, p)| && d <= Share(p) * m && Ticks(events) >= CYCLE * m
    ensures d <= |Sent(env, s, events, p)| && Sent(env, s, events, p)[..d] == Level(s.queue, p)[..d]
  {
    FirstInFirstOut(env, s, events, p);
    OneStretch(env, s, events, p);
    EnoughInCycle(s.counter, Ticks(events), m, p);
    Prefix(Level(s.queue, p), Sent(env, s, events, p), Level(Run(env, s, events).queue, p), d);
  }

  // ---------------------------------------------------------------- from the start, settings, clearing

  /** From the start, while nothing is immediate, the first tick is nobody's and each 22 after it give every
      level its share. */
  lemma FromTheStart(m: nat, p: nat)
    requires p != IMMEDIATE
    ensures Turns(RIG, Start().counter, 1 + 22 * m, p) == Share(p) * m
  {
    FairShares(2, m, p);
    TurnsSplit(RIG, Start().counter, 1, CYCLE * m, p);
    assert After(RIG, Start().counter, 0) == 1 && After(RIG, Start().counter, 1) == 2;
    assert Turns(RIG, Start().counter, 1, p) == Turns(RIG, Start().counter, 0, p);
  }

  /** The interval last set, -1 before that, and the capabilities last told. */
  function IntervalAt(events: seq<Event>): int {
    if events == [] then -1
    else
      match events[|events| - 1]
      case SetInterval(interval) => interval
      case _ => IntervalAt(events[..|events| - 1])
  }

  function CapsAt(events: seq<Event>): Option<Caps> {
    if events == [] then None
    else
      match events[|events| - 1]
      case SetCaps(caps) => caps
      case _ => CapsAt(events[..|events| - 1])
  }

  /** After every run those are the interval and the capabilities that decide what is let in. */
  lemma {:induction false} SettingsAre(env: Env, events: seq<Event>)
    ensures Run(env, Start(), events).interval == IntervalAt(events)
    ensures Run(env, Start(), events).caps == CapsAt(events)
  {
    if events != [] {
      SettingsAre(env, events[..|events| - 1]);
    }
  }

  /** After clear() the queue stays empty, and nothing is dispatched, until something is added. */
  lemma {:induction false} NothingAfterClear(env: Env, s: State, events: seq<Event>)
    requires forall e :: e in events ==> !e.Add?
    ensures var t := Run(env, Step(env, s, Clear), events); t.queue == [] && Dispatched(env.clock, t) == None
  {
    if events != [] {
      NothingAfterClear(env, s, events[..|events| - 1]);
    }
  }

  /** What del() and a unique add() take out of a level: everything with the same command and receiver that
      recurs like it, whatever its parameter, and nothing else. */
  lemma {:induction false} WithoutIs(items: seq<Item>, x: Item, y: Item)
    ensures multiset(Without(items, x))[y]
         == if y.command == x.command && y.receiver == x.receiver && y.recurring == x.recurring then 0
            else multiset(items)[y]
  {
    if items != [] {
      var init, last := items[..|items| - 1], items[|items| - 1];
      WithoutIs(init, x, y);
      assert items == init + [last];
      assert multiset(items) == multiset(init) + multiset{last};
      assert Without(items, x) == Without(init, x) + (if Same(last, x) then [] else [last]);
    }
  }

  /** So del() leaves of the first level the command recurs on all but its recurrences. */
  lemma DeletedItems(s: State, f: Func, receiver: nat, r: nat, y: Item)
    requires f != NoFunc && FindRecurring(s.queue, f, receiver) < |s.queue|
    ensures multiset(Level(Deleted(s, f, receiver).queue, r))[y]
         == if r == s.queue[FindRecurring(s.queue, f, receiver)].prio && IsRecurrence(y, f, receiver) then 0
            else multiset(Level(s.queue, r))[y]
  {
    DeletedLevels(s, f, receiver, r);
    WithoutIs(Level(s.queue, r), s.queue[FindRecurring(s.queue, f, receiver)].item, y);
  }
}
