/** The decoder's two-sided graph: check nodes and variable nodes, each knowing at which place of
    the other's list it is itself listed. */
module RadeGraph {
  import opened Arithmetic
  import opened RadeCode

  datatype CSub = CSub(index: nat, socket: nat, message: real)
  datatype CNode = CNode(subs: seq<CSub>)
  datatype VSub = VSub(index: nat, socket: nat, message: real, sign: bit)
  datatype VNode = VNode(initial: real, subs: seq<VSub>)

  function Abs(x: real): real { if x < 0.0 then -x else x }

  /** First place of x in xs from k on; 0, as in cleared memory, when there is none. */
  function PlaceFrom(xs: seq<nat>, x: nat, k: nat): nat
    decreases |xs| - k
  {
    if k >= |xs| then 0 else if xs[k] == x then k else PlaceFrom(xs, x, k + 1)
  }

  function Place(xs: seq<nat>, x: nat): nat { PlaceFrom(xs, x, 0) }

  predicate Distinct(xs: seq<nat>) {
    forall i, j :: 0 <= i < j < |xs| ==> xs[i] != xs[j]
  }

  lemma {:induction false} PlaceFromFinds(xs: seq<nat>, k: nat, j: nat)
    requires k <= j < |xs| && Distinct(xs)
    ensures PlaceFrom(xs, xs[j], k) == j
    decreases j - k
  {
    if k < j {
      PlaceFromFinds(xs, k + 1, j);
    }
  }

  // ---------------------------------------------------------------- the graph a code describes

  function NewCheck(code: Code, p: nat): CNode
    requires Sized(code) && p < code.n
  {
    var ns := Neighbours(code, p);
    CNode(seq(|ns|, j requires 0 <= j < |ns| => CSub(ns[j], 0, 0.0)))
  }

  function Check(code: Code, p: nat): CNode
    requires Sized(code) && p < code.n
  {
    var ns := Neighbours(code, p);
    CNode(seq(|ns|, j requires 0 <= j < |ns| =>
      CSub(ns[j], if ns[j] < 2 * code.n then Place(Checks(code, ns[j]), p) else 0, 0.0)))
  }

  function Variable(phi: real -> real, code: Code, i: nat, llr: real): VNode
    requires Sized(code) && i < 2 * code.n
  {
    var cs := Checks(code, i);
    VNode(llr, seq(|cs|, j requires 0 <= j < |cs| =>
      VSub(cs[j], if cs[j] < code.n then Place(Neighbours(code, cs[j]), i) else 0,
           phi(Abs(llr)), if llr < 0.0 then 1 else 0)))
  }

  function CheckNodes(code: Code): seq<CNode>
    requires Sized(code)
  {
    seq(code.n, p requires 0 <= p < code.n => Check(code, p))
  }

  function VariableNodes(phi: real -> real, code: Code, llr: seq<real>): seq<VNode>
    requires Sized(code) && |llr| == 2 * code.n
  {
    seq(2 * code.n, i requires 0 <= i < 2 * code.n => Variable(phi, code, i, llr[i]))
  }

  /** The column table is the row table transposed and no line repeats an entry. */
  predicate Transposed(code: Code)
    requires Sized(code)
  {
    && (forall p, d :: 0 <= p < code.n && 0 <= d < code.n ==>
          (d in Line(code.rows, code.n, p) <==> p in Line(code.cols, code.n, d)))
    && (forall p :: 0 <= p < code.n ==> Distinct(Line(code.rows, code.n, p)))
    && (forall d :: 0 <= d < code.n ==> Distinct(Line(code.cols, code.n, d)))
  }

  /** Every sub-node's socket points at the sub-node that points back. */
  predicate Linked(c: seq<CNode>, v: seq<VNode>) {
    && (forall p, j :: 0 <= p < |c| && 0 <= j < |c[p].subs| ==>
          var s := c[p].subs[j];
          s.index < |v| && s.socket < |v[s.index].subs|
          && v[s.index].subs[s.socket].index == p && v[s.index].subs[s.socket].socket == j)
    && (forall i, j :: 0 <= i < |v| && 0 <= j < |v[i].subs| ==>
          var s := v[i].subs[j];
          s.index < |c| && s.socket < |c[s.index].subs|
          && c[s.index].subs[s.socket].index == i && c[s.index].subs[s.socket].socket == j)
    && (forall p :: 0 <= p < |c| ==> |c[p].subs| > 0)
  }

  /** A data bit's neighbours are all in the tables. */
  lemma DataNeighbour(code: Code, p: nat, i: nat)
    requires Sized(code) && p < code.n && i < code.n
    ensures i in Neighbours(code, p) <==> i in Line(code.rows, code.n, p)
  {
  }

  /** A parity bit's are the two ends of its link of the chain. */
  lemma ParityNeighbour(code: Code, p: nat, i: nat)
    requires Sized(code) && p < code.n && code.n <= i < 2 * code.n
    ensures i in Neighbours(code, p) <==> i == code.n + p || (p > 0 && i == code.n + p - 1)
    ensures p in Checks(code, i) <==> i == code.n + p || (p > 0 && i == code.n + p - 1)
  {
    LineInRange(code.rows, code.n, p, WEIGHT);
    assert i !in Line(code.rows, code.n, p);
  }

  lemma NeighbourIffCheck(code: Code, p: nat, i: nat)
    requires Sized(code) && Transposed(code) && p < code.n && i < 2 * code.n
    ensures i in Neighbours(code, p) <==> p in Checks(code, i)
  {
    if i < code.n {
      DataNeighbour(code, p, i);
    } else {
      ParityNeighbour(code, p, i);
    }
  }

  lemma NeighboursDistinct(code: Code, p: nat)
    requires Sized(code) && Transposed(code) && p < code.n
    ensures Distinct(Neighbours(code, p)) && 1 <= |Neighbours(code, p)| <= WEIGHT + 2
    ensures forall j :: 0 <= j < |Neighbours(code, p)| ==> Neighbours(code, p)[j] < 2 * code.n
  {
    LineInRange(code.rows, code.n, p, WEIGHT);
  }

  lemma ChecksDistinct(code: Code, i: nat)
    requires Sized(code) && Transposed(code) && i < 2 * code.n
    ensures Distinct(Checks(code, i)) && |Checks(code, i)| <= WEIGHT
    ensures forall j :: 0 <= j < |Checks(code, i)| ==> Checks(code, i)[j] < code.n
  {
    if i < code.n {
      LineInRange(code.cols, code.n, i, WEIGHT);
    }
  }

  lemma ListsDistinct(code: Code, p: nat, i: nat)
    requires Sized(code) && Transposed(code) && p < code.n && i < 2 * code.n
    ensures Distinct(Neighbours(code, p)) && Distinct(Checks(code, i))
    ensures forall j :: 0 <= j < |Neighbours(code, p)| ==> Neighbours(code, p)[j] < 2 * code.n
    ensures forall j :: 0 <= j < |Checks(code, i)| ==> Checks(code, i)[j] < code.n
    ensures |Checks(code, i)| <= WEIGHT && 1 <= |Neighbours(code, p)| <= WEIGHT + 2
  {
    NeighboursDistinct(code, p);
    ChecksDistinct(code, i);
  }

  lemma EdgeFromCheck(code: Code, p: nat, j: nat)
    requires Sized(code) && Transposed(code) && p < code.n && j < |Neighbours(code, p)|
    ensures var i := Neighbours(code, p)[j];
            i < 2 * code.n &&
            var k := Place(Checks(code, i), p);
            k < |Checks(code, i)| && Checks(code, i)[k] == p && Place(Neighbours(code, p), i) == j
  {
    ListsDistinct(code, p, 0);
    var i := Neighbours(code, p)[j];
    ListsDistinct(code, p, i);
    NeighbourIffCheck(code, p, i);
    var k :| 0 <= k < |Checks(code, i)| && Checks(code, i)[k] == p;
    PlaceFromFinds(Checks(code, i), 0, k);
    PlaceFromFinds(Neighbours(code, p), 0, j);
  }

  lemma EdgeFromVariable(code: Code, i: nat, k: nat)
    requires Sized(code) && Transposed(code) && i < 2 * code.n && k < |Checks(code, i)|
    ensures var p := Checks(code, i)[k];
            p < code.n &&
            var j := Place(Neighbours(code, p), i);
            j < |Neighbours(code, p)| && Neighbours(code, p)[j] == i && Place(Checks(code, i), p) == k
  {
    ListsDistinct(code, 0, i);
    var p := Checks(code, i)[k];
    ListsDistinct(code, p, i);
    NeighbourIffCheck(code, p, i);
    var j :| 0 <= j < |Neighbours(code, p)| && Neighbours(code, p)[j] == i;
    PlaceFromFinds(Neighbours(code, p), 0, j);
    PlaceFromFinds(Checks(code, i), 0, k);
  }

  /** For any transposed pair of tables the sockets are mutual inverses. */
  lemma GraphIsLinked(phi: real -> real, code: Code, llr: seq<real>)
    requires Sized(code) && Transposed(code) && |llr| == 2 * code.n
    ensures Linked(CheckNodes(code), VariableNodes(phi, code, llr))
  {
    var c, v := CheckNodes(code), VariableNodes(phi, code, llr);
    forall p, j | 0 <= p < |c| && 0 <= j < |c[p].subs|
      ensures var s := c[p].subs[j];
              s.index < |v| && s.socket < |v[s.index].subs|
              && v[s.index].subs[s.socket].index == p && v[s.index].subs[s.socket].socket == j
    {
      assert c[p] == Check(code, p);
      EdgeFromCheck(code, p, j);
    }
    forall i, j | 0 <= i < |v| && 0 <= j < |v[i].subs|
      ensures var s := v[i].subs[j];
              s.index < |c| && s.socket < |c[s.index].subs|
              && c[s.index].subs[s.socket].index == i && c[s.index].subs[s.socket].socket == j
    {
      assert v[i] == Variable(phi, code, i, llr[i]);
      EdgeFromVariable(code, i, j);
    }
    forall p | 0 <= p < |c|
      ensures |c[p].subs| > 0
    {
      assert c[p] == Check(code, p);
      ListsDistinct(code, p, 0);
    }
  }

  // ---------------------------------------------------------------- building it

  predicate PackedLine(table: seq<nat>, n: nat, p: nat)
    requires |table| == WEIGHT * n && p < n
  {
    && (Entry(table, n, p, 1) > 0 ==> Entry(table, n, p, 0) > 0)
    && (Entry(table, n, p, 2) > 0 ==> Entry(table, n, p, 1) > 0)
  }

  /** Entries stand at the front of their lines, and the first row is not empty. */
  predicate Packed(code: Code)
    requires Sized(code)
  {
    && (forall p :: 0 <= p < code.n ==> PackedLine(code.rows, code.n, p))
    && (forall d :: 0 <= d < code.n ==> PackedLine(code.cols, code.n, d))
    && Entry(code.rows, code.n, 0, 0) > 0
  }

  lemma PackedLineMeans(table: seq<nat>, n: nat, p: nat)
    requires |table| == WEIGHT * n && p < n && PackedLine(table, n, p)
    ensures |Line(table, n, p)| <= WEIGHT
    ensures forall j :: 0 <= j < |Line(table, n, p)| ==>
              Entry(table, n, p, j) > 0 && Line(table, n, p)[j] == Entry(table, n, p, j) - 1
    ensures Entry(table, n, p, 0) > 0 ==> |Line(table, n, p)| > 0
  {
    assert LineUpTo(table, n, p, 0) == [];
    assert LineUpTo(table, n, p, 1)
        == LineUpTo(table, n, p, 0) + (if Entry(table, n, p, 0) > 0 then [Entry(table, n, p, 0) - 1] else []);
    assert LineUpTo(table, n, p, 2)
        == LineUpTo(table, n, p, 1) + (if Entry(table, n, p, 1) > 0 then [Entry(table, n, p, 1) - 1] else []);
    assert LineUpTo(table, n, p, 3)
        == LineUpTo(table, n, p, 2) + (if Entry(table, n, p, 2) > 0 then [Entry(table, n, p, 2) - 1] else []);
  }

  method CountLine(table: seq<nat>, n: nat, p: nat) returns (count: nat)
    requires |table| == WEIGHT * n && p < n
    ensures count == |Line(table, n, p)|
  {
    count := 0;
    var j := 0;
    while j < WEIGHT
      invariant 0 <= j <= WEIGHT
      invariant count == |LineUpTo(table, n, p, j)|
    {
      if Entry(table, n, p, j) > 0 {
        count := count + 1;
      }
      j := j + 1;
    }
  }

  lemma NewCheckShape(code: Code, p: nat)
    requires Sized(code) && Packed(code) && p < code.n
    ensures var line := Line(code.rows, code.n, p); var subs := NewCheck(code, p).subs;
            && |line| <= WEIGHT && (p == 0 ==> |line| > 0)
            && |subs| == (if p == 0 then |line| + 1 else |line| + 2)
            && (forall k :: 0 <= k < |line| ==>
                  Entry(code.rows, code.n, p, k) > 0 && subs[k] == CSub(Entry(code.rows, code.n, p, k) - 1, 0, 0.0))
            && (p > 0 ==> subs[|subs| - 2] == CSub(code.n + p - 1, 0, 0.0))
            && subs[|subs| - 1] == CSub(code.n + p, 0, 0.0)
  {
    PackedLineMeans(code.rows, code.n, p);
  }

  /** A check node as it stands before its sockets are known. */
  method PopulateCheck(code: Code, p: nat) returns (node: CNode)
    requires Sized(code) && Packed(code) && p < code.n
    ensures node == NewCheck(code, p)
  {
    var count := CountLine(code.rows, code.n, p);
    NewCheckShape(code, p);
    ghost var want := NewCheck(code, p).subs;
    var degree := if p == 0 then count + 1 else count + 2;
    var subs := seq(degree, _ => CSub(0, 0, 0.0));
    var j := 0;
    while j < degree - 2
      invariant 0 <= j <= degree - 2 && |subs| == degree
      invariant forall k :: 0 <= k < j ==> subs[k] == want[k]
      invariant forall k :: j <= k < degree ==> subs[k] == CSub(0, 0, 0.0)
    {
      subs := subs[j := subs[j].(index := Entry(code.rows, code.n, p, j) - 1)];
      j := j + 1;
    }
    if p == 0 {
      subs := subs[j := subs[j].(index := Entry(code.rows, code.n, p, j) - 1)];
    } else {
      subs := subs[j := subs[j].(index := code.n + p - 1)];
    }
    assert subs[degree - 2] == want[degree - 2];
    j := degree - 1;
    subs := subs[j := subs[j].(index := code.n + p)];
    node := CNode(subs);
    assert subs == want;
  }

  function CIndexes(node: CNode): seq<nat> { seq(|node.subs|, j requires 0 <= j < |node.subs| => node.subs[j].index) }

  function VIndexes(node: VNode): seq<nat> { seq(|node.subs|, j requires 0 <= j < |node.subs| => node.subs[j].index) }

  method FindInCheck(node: CNode, i: nat) returns (socket: nat)
    ensures socket == Place(CIndexes(node), i)
  {
    socket := 0;
    var k := 0;
    while k < |node.subs|
      invariant 0 <= k <= |node.subs| && socket == 0
      invariant Place(CIndexes(node), i) == PlaceFrom(CIndexes(node), i, k)
    {
      if node.subs[k].index == i {
        socket := k;
        break;
      }
      k := k + 1;
    }
  }

  method FindInVariable(node: VNode, p: nat) returns (socket: nat)
    ensures socket == Place(VIndexes(node), p)
  {
    socket := 0;
    var k := 0;
    while k < |node.subs|
      invariant 0 <= k <= |node.subs| && socket == 0
      invariant Place(VIndexes(node), p) == PlaceFrom(VIndexes(node), p, k)
    {
      if node.subs[k].index == p {
        socket := k;
        break;
      }
      k := k + 1;
    }
  }

  method VariableDegree(code: Code, i: nat) returns (degree: nat)
    requires Sized(code) && i < 2 * code.n
    ensures degree == |Checks(code, i)|
  {
    if i < code.n {
      degree := CountLine(code.cols, code.n, i);
    } else {
      degree := if i != 2 * code.n - 1 then 2 else 1;
    }
  }

  /** Edge j of variable i; count is how many of its edges are done. */
  method PopulateEdge(phi: real -> real, code: Code, i: nat, j: nat, count: nat, llr: real, c: seq<CNode>)
    returns (sub: VSub)
    requires Sized(code) && Packed(code) && i < 2 * code.n && j < |Checks(code, i)|
    requires |c| == code.n && forall p :: 0 <= p < code.n ==> c[p] == NewCheck(code, p)
    requires i >= code.n ==> count == j
    ensures j < |Variable(phi, code, i, llr).subs| && sub == Variable(phi, code, i, llr).subs[j]
  {
    var index: nat;
    if i >= code.n {
      index := i - code.n + count;
    } else {
      PackedLineMeans(code.cols, code.n, i);
      LineInRange(code.cols, code.n, i, WEIGHT);
      index := Entry(code.cols, code.n, i, j) - 1;
    }
    assert index == Checks(code, i)[j] < code.n;
    assert CIndexes(c[index]) == Neighbours(code, index);
    var socket := FindInCheck(c[index], i);
    sub := VSub(index, socket, phi(Abs(llr)), 0);
    if llr < 0.0 {
      sub := sub.(sign := 1);
    }
  }

  method PopulateVariable(phi: real -> real, code: Code, i: nat, llr: real, c: seq<CNode>) returns (node: VNode)
    requires Sized(code) && Packed(code) && i < 2 * code.n
    requires |c| == code.n && forall p :: 0 <= p < code.n ==> c[p] == NewCheck(code, p)
    ensures node == Variable(phi, code, i, llr)
  {
    var degree := VariableDegree(code, i);
    ghost var want := Variable(phi, code, i, llr).subs;
    var subs := seq(degree, _ => VSub(0, 0, 0.0, 0));
    var count := 0;
    var j := 0;
    while j < degree
      invariant 0 <= j <= degree == |subs|
      invariant i >= code.n ==> count == j
      invariant forall k :: 0 <= k < j ==> subs[k] == want[k]
    {
      var sub := PopulateEdge(phi, code, i, j, count, llr, c);
      subs := subs[j := sub];
      if i >= code.n {
        count := count + 1;
      }
      j := j + 1;
    }
    node := VNode(llr, subs);
    assert subs == want;
  }

  /** The last pass: where each variable lists this check. */
  method FinishCheck(phi: real -> real, code: Code, p: nat, llr: seq<real>, node: CNode, v: seq<VNode>)
    returns (done: CNode)
    requires Sized(code) && p < code.n && |llr| == 2 * code.n
    requires node == NewCheck(code, p) && v == VariableNodes(phi, code, llr)
    ensures done == Check(code, p)
  {
    NeighboursInRange(code, p);
    var subs := node.subs;
    ghost var want := Check(code, p).subs;
    var j := 0;
    while j < |subs|
      invariant 0 <= j <= |subs| == |node.subs|
      invariant forall k :: 0 <= k < j ==> subs[k] == want[k]
      invariant forall k :: j <= k < |subs| ==> subs[k] == node.subs[k]
    {
      var i := subs[j].index;
      assert v[i] == Variable(phi, code, i, llr[i]);
      assert VIndexes(v[i]) == Checks(code, i);
      var socket := FindInVariable(v[i], p);
      subs := subs[j := subs[j].(socket := socket)];
      j := j + 1;
    }
    done := CNode(subs);
    assert subs == want;
  }

  /** The first pass: the check nodes, their sockets still open. */
  method PopulateChecks(code: Code, c: array<CNode>)
    requires Sized(code) && Packed(code) && c.Length == code.n
    modifies c
    ensures forall q :: 0 <= q < code.n ==> c[q] == NewCheck(code, q)
  {
    var i := 0;
    while i < code.n
      invariant 0 <= i <= code.n
      invariant forall q :: 0 <= q < i ==> c[q] == NewCheck(code, q)
    {
      var node := PopulateCheck(code, i);
      c[i] := node;
      i := i + 1;
    }
  }

  method PopulateVariables(phi: real -> real, code: Code, input: seq<real>, c: seq<CNode>, v: array<VNode>)
    requires Sized(code) && Packed(code) && |input| == v.Length == 2 * code.n
    requires |c| == code.n && forall q :: 0 <= q < code.n ==> c[q] == NewCheck(code, q)
    modifies v
    ensures v[..] == VariableNodes(phi, code, input)
  {
    ghost var want := VariableNodes(phi, code, input);
    var i := 0;
    while i < 2 * code.n
      invariant 0 <= i <= 2 * code.n
      invariant forall q :: 0 <= q < i ==> v[q] == want[q]
    {
      var node := PopulateVariable(phi, code, i, input[i], c);
      v[i] := node;
      i := i + 1;
    }
    assert v[..] == want;
  }

  method FinishChecks(phi: real -> real, code: Code, input: seq<real>, c: array<CNode>, v: seq<VNode>)
    requires Sized(code) && |input| == 2 * code.n && c.Length == code.n && v == VariableNodes(phi, code, input)
    requires forall q :: 0 <= q < code.n ==> c[q] == NewCheck(code, q)
    modifies c
    ensures c[..] == CheckNodes(code)
  {
    ghost var want := CheckNodes(code);
    var i := 0;
    while i < code.n
      invariant 0 <= i <= code.n
      invariant forall q :: 0 <= q < i ==> c[q] == want[q]
      invariant forall q :: i <= q < code.n ==> c[q] == NewCheck(code, q)
    {
      var node := FinishCheck(phi, code, i, input, c[i], v);
      c[i] := node;
      i := i + 1;
    }
    assert c[..] == want;
  }

  method InitNodes(phi: real -> real, code: Code, input: seq<real>, c: array<CNode>, v: array<VNode>)
    requires Sized(code) && Packed(code) && |input| == 2 * code.n
    requires c.Length == code.n && v.Length == 2 * code.n
    modifies c, v
    ensures c[..] == CheckNodes(code) && v[..] == VariableNodes(phi, code, input)
  {
    PopulateChecks(code, c);
    PopulateVariables(phi, code, input, c[..], v);
    FinishChecks(phi, code, input, c, v[..]);
  }
}
