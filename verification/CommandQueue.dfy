/** The multimap the rig-command queue is kept in: iteration order is by priority, and within a
    priority newest first. */
module CommandQueue {
  // Prime numbers, so that each level gets its turn.
  const NONE := 0
  const IMMEDIATE := 1
  const HIGHEST := 2
  const HIGH := 3
  const MEDIUM_HIGH := 5
  const MEDIUM := 7
  const MEDIUM_LOW := 11
  const LOW := 19
  const LOWEST := 23

  /** The commands the scheduler itself knows, and all others. */
  datatype Func =
    | NoFunc | SelectVFO | TransceiverId | PowerControl
    | SatelliteMode | MemoryMode | VFOMode | VFOBandMS
    | VFOASelect | VFOBSelect | VFOMainSelect | VFOSubSelect
    | Other(code: nat)

  /** The types compare() distinguishes by name, and all others. */
  datatype Kind =
    | Bool | UChar | UShort | Short | UInt | Int | Double
    | ModeInfo | Freq | AntennaInfo | RigInput | DuplexMode | ToneInfo | Meter | Vfo | LpfHpf
    | SpectrumBounds | CenterSpan | RptrAccess
    | Text | ScopeData | MemoryType | MemoryTag | MemorySplit | BandStack | TimeKind | DateKind | MeterKind
    | UdpPreferences
    | Unknown(name: nat)

  /** A QVariant: key holds the members compare() looks at, rest whatever else there is. */
  datatype Variant = Invalid | Variant(kind: Kind, key: seq<int>, rest: int)

  datatype Item = Item(command: Func, param: Variant, receiver: nat, recurring: bool)

  datatype Entry = Entry(prio: nat, item: Item)

  /** operator== of queueItem: parameters are not compared. */
  predicate Same(a: Item, b: Item) {
    a.command == b.command && a.receiver == b.receiver && a.recurring == b.recurring
  }

  predicate Sorted(q: seq<Entry>) {
    forall i, j :: 0 <= i < j < |q| ==> q[i].prio <= q[j].prio
  }

  /** The items of one level, oldest first. */
  function Level(q: seq<Entry>, p: nat): seq<Item> {
    if q == [] then [] else Level(q[1..], p) + (if q[0].prio == p then [q[0].item] else [])
  }

  // ---------------------------------------------------------------- insertion

  /** QMultiMap::insert: in front of the entries of the same priority. */
  function Insert(q: seq<Entry>, p: nat, x: Item): seq<Entry> {
    if q == [] || q[0].prio >= p then [Entry(p, x)] + q else [q[0]] + Insert(q[1..], p, x)
  }

  lemma {:induction false} InsertEffect(q: seq<Entry>, p: nat, x: Item, r: nat)
    ensures Level(Insert(q, p, x), r) == if r == p then Level(q, p) + [x] else Level(q, r)
  {
    if q == [] || q[0].prio >= p {
      assert ([Entry(p, x)] + q)[1..] == q;
    } else {
      InsertEffect(q[1..], p, x, r);
      assert Insert(q, p, x)[1..] == Insert(q[1..], p, x);
    }
  }

  predicate AtLeast(lo: nat, q: seq<Entry>) {
    forall i :: 0 <= i < |q| ==> lo <= q[i].prio
  }

  lemma SortedCons(e: Entry, q: seq<Entry>)
    ensures Sorted([e] + q) <==> AtLeast(e.prio, q) && Sorted(q)
  {
    var s := [e] + q;
    assert forall i :: 0 <= i < |s| ==> s[i] == if i == 0 then e else q[i - 1];
    if Sorted(s) {
      forall i | 0 <= i < |q|
        ensures e.prio <= q[i].prio
        ensures forall j :: i < j < |q| ==> q[i].prio <= q[j].prio
      {
        assert s[0].prio <= s[i + 1].prio;
        assert forall j :: i < j < |q| ==> q[j] == s[j + 1];
      }
    }
  }

  lemma {:induction false} InsertAtLeast(q: seq<Entry>, p: nat, x: Item, lo: nat)
    requires AtLeast(lo, q) && lo <= p
    ensures AtLeast(lo, Insert(q, p, x))
  {
    if q != [] && q[0].prio < p {
      InsertAtLeast(q[1..], p, x, lo);
    }
  }

  lemma {:induction false} InsertSorted(q: seq<Entry>, p: nat, x: Item)
    requires Sorted(q)
    ensures Sorted(Insert(q, p, x))
  {
    if q == [] || q[0].prio >= p {
      SortedCons(Entry(p, x), q);
    } else {
      assert q == [q[0]] + q[1..];
      SortedCons(q[0], q[1..]);
      InsertSorted(q[1..], p, x);
      InsertAtLeast(q[1..], p, x, q[0].prio);
      SortedCons(q[0], Insert(q[1..], p, x));
    }
  }

  // ---------------------------------------------------------------- removal

  function RemoveAt(q: seq<Entry>, i: nat): seq<Entry>
    requires i < |q|
  {
    q[..i] + q[i + 1..]
  }

  /** Where iteration over level p ends: at its oldest entry. */
  predicate OldestAt(q: seq<Entry>, p: nat, i: nat) {
    i < |q| && q[i].prio == p && (i + 1 < |q| ==> q[i + 1].prio != p)
  }

  lemma {:induction false} LevelAbsent(q: seq<Entry>, p: nat)
    requires forall i :: 0 <= i < |q| ==> q[i].prio != p
    ensures Level(q, p) == []
  {
    if q != [] {
      LevelAbsent(q[1..], p);
    }
  }

  /** What an entry adds to a level. */
  function Own(e: Entry, p: nat): seq<Item> { if e.prio == p then [e.item] else [] }

  /** An entry that is not the first leaves the levels of those behind the first. */
  lemma RemoveBehind(q: seq<Entry>, i: nat, r: nat)
    requires 0 < i < |q|
    ensures Level(RemoveAt(q, i), r) == Level(RemoveAt(q[1..], i - 1), r) + Own(q[0], r)
    ensures Level(q, r) == Level(q[1..], r) + Own(q[0], r)
  {
    assert RemoveAt(q, i)[1..] == RemoveAt(q[1..], i - 1) && RemoveAt(q, i)[0] == q[0];
  }

  lemma TailAppend(items: seq<Item>, more: seq<Item>)
    requires items != []
    ensures (items + more)[1..] == items[1..] + more && (items + more)[0] == items[0]
  {
  }

  lemma {:induction false} RemoveOldest(q: seq<Entry>, p: nat, i: nat, r: nat)
    requires Sorted(q) && OldestAt(q, p, i)
    ensures Level(q, p) != [] && Level(q, p)[0] == q[i].item
    ensures Level(RemoveAt(q, i), r) == if r == p then Level(q, p)[1..] else Level(q, r)
    decreases i
  {
    if i == 0 {
      assert RemoveAt(q, 0) == q[1..];
      LevelAbsent(q[1..], p);
    } else {
      RemoveOldest(q[1..], p, i - 1, r);
      RemoveBehind(q, i, r);
      TailAppend(Level(q[1..], p), Own(q[0], p));
    }
  }

  lemma RemoveSorted(q: seq<Entry>, i: nat)
    requires Sorted(q) && i < |q|
    ensures Sorted(RemoveAt(q, i))
  {
  }

  /** QMultiMap::remove(key, value). */
  function RemoveSame(q: seq<Entry>, p: nat, x: Item): seq<Entry> {
    if q == [] then []
    else (if q[0].prio == p && Same(q[0].item, x) then [] else [q[0]]) + RemoveSame(q[1..], p, x)
  }

  function Without(items: seq<Item>, x: Item): seq<Item> {
    if items == [] then []
    else
      Without(items[..|items| - 1], x) + (if Same(items[|items| - 1], x) then [] else [items[|items| - 1]])
  }

  lemma WithoutSnoc(items: seq<Item>, y: Item, x: Item)
    ensures Without(items + [y], x) == Without(items, x) + (if Same(y, x) then [] else [y])
  {
    assert (items + [y])[..|items|] == items;
  }

  lemma {:induction false} RemoveSameEffect(q: seq<Entry>, p: nat, x: Item, r: nat)
    ensures Level(RemoveSame(q, p, x), r) == if r == p then Without(Level(q, p), x) else Level(q, r)
  {
    if q != [] {
      RemoveSameEffect(q[1..], p, x, r);
      var rest := RemoveSame(q[1..], p, x);
      if q[0].prio == p && Same(q[0].item, x) {
        assert RemoveSame(q, p, x) == rest;
      } else {
        assert RemoveSame(q, p, x)[1..] == rest;
      }
      WithoutSnoc(Level(q[1..], p), q[0].item, x);
      assert Level(q[1..], r) + [] == Level(q[1..], r) && Level(rest, r) + [] == Level(rest, r);
    }
  }

  lemma {:induction false} RemoveSameSorted(q: seq<Entry>, p: nat, x: Item, lo: nat)
    requires Sorted(q) && AtLeast(lo, q)
    ensures Sorted(RemoveSame(q, p, x)) && AtLeast(lo, RemoveSame(q, p, x))
  {
    if q != [] {
      assert q == [q[0]] + q[1..];
      SortedCons(q[0], q[1..]);
      RemoveSameSorted(q[1..], p, x, q[0].prio);
      SortedCons(q[0], RemoveSame(q[1..], p, x));
    }
  }

  // ---------------------------------------------------------------- recurring entries

  /** The first recurring entry for a command in iteration order; |q| when there is none. */
  function FindRecurring(q: seq<Entry>, f: Func, receiver: nat): (i: nat)
    ensures i <= |q|
  {
    if q == [] then 0
    else if q[0].item.command == f && q[0].item.receiver == receiver && q[0].item.recurring then 0
    else 1 + FindRecurring(q[1..], f, receiver)
  }

  function Kept(x: Item): multiset<Item> { if x.recurring then multiset{x} else multiset{} }

  /** The recurring items among some. */
  function Recurring(items: seq<Item>): multiset<Item> {
    if items == [] then multiset{} else Recurring(items[..|items| - 1]) + Kept(items[|items| - 1])
  }

  lemma RecurringSnoc(items: seq<Item>, x: Item)
    ensures Recurring(items + [x]) == Recurring(items) + Kept(x)
  {
    assert (items + [x])[..|items|] == items;
  }

  lemma {:induction false} RecurringCons(x: Item, items: seq<Item>)
    ensures Recurring([x] + items) == Kept(x) + Recurring(items)
  {
    if items == [] {
      assert [x] + items == [] + [x];
      RecurringSnoc([], x);
    } else {
      var init, last := items[..|items| - 1], items[|items| - 1];
      assert [x] + items == ([x] + init) + [last];
      RecurringSnoc([x] + init, last);
      RecurringCons(x, init);
    }
  }
}
