/** The sum-product decoder, for any function in the place of phi0: one iteration, and all of them. */
module RadeDecoder {
  import opened Bytes
  import opened RadeCode
  import opened RadeGraph

  const MAX_ITER := 100

  // ---------------------------------------------------------------- one iteration

  /** The variable side of a check's edge. */
  function VOf(v: seq<VNode>, s: CSub): VSub {
    if s.index < |v| && s.socket < |v[s.index].subs| then v[s.index].subs[s.socket] else VSub(0, 0, 0.0, 0)
  }

  /** The check side of a variable's edge. */
  function COf(c: seq<CNode>, s: VSub): CSub {
    if s.index < |c| && s.socket < |c[s.index].subs| then c[s.index].subs[s.socket] else CSub(0, 0, 0.0)
  }

  function Xor(a: bit, b: bit): bit { if a == b then 0 else 1 }

  function SignOf(subs: seq<CSub>, v: seq<VNode>): bit {
    if subs == [] then 0 else Xor(SignOf(subs[..|subs| - 1], v), VOf(v, subs[|subs| - 1]).sign)
  }

  function PhiOf(subs: seq<CSub>, v: seq<VNode>): real {
    if subs == [] then 0.0 else PhiOf(subs[..|subs| - 1], v) + VOf(v, subs[|subs| - 1]).message
  }

  function CMessage(phi: real -> real, sign: bit, total: real, e: VSub): real {
    if Xor(sign, e.sign) == 1 then -phi(total - e.message) else phi(total - e.message)
  }

  function CheckUpdate(phi: real -> real, node: CNode, v: seq<VNode>): CNode {
    var sign, total := SignOf(node.subs, v), PhiOf(node.subs, v);
    CNode(seq(|node.subs|, j requires 0 <= j < |node.subs| =>
      node.subs[j].(message := CMessage(phi, sign, total, VOf(v, node.subs[j])))))
  }

  function CheckSide(phi: real -> real, c: seq<CNode>, v: seq<VNode>): seq<CNode> {
    seq(|c|, p requires 0 <= p < |c| => CheckUpdate(phi, c[p], v))
  }

  /** How many checks have even sign. */
  function EvenChecks(c: seq<CNode>, v: seq<VNode>): nat {
    if c == [] then 0
    else EvenChecks(c[..|c| - 1], v) + (if SignOf(c[|c| - 1].subs, v) == 0 then 1 else 0)
  }

  function Belief(initial: real, subs: seq<VSub>, c: seq<CNode>): real {
    if subs == [] then initial
    else Belief(initial, subs[..|subs| - 1], c) + COf(c, subs[|subs| - 1]).message
  }

  function VUpdate(phi: real -> real, q: real, c: seq<CNode>, e: VSub): VSub {
    var rest := q - COf(c, e).message;
    e.(message := phi(Abs(rest)), sign := if rest > 0.0 then 0 else 1)
  }

  function VariableUpdate(phi: real -> real, node: VNode, c: seq<CNode>): VNode {
    var q := Belief(node.initial, node.subs, c);
    VNode(node.initial, seq(|node.subs|, j requires 0 <= j < |node.subs| => VUpdate(phi, q, c, node.subs[j])))
  }

  function VariableSide(phi: real -> real, v: seq<VNode>, c: seq<CNode>): seq<VNode> {
    seq(|v|, i requires 0 <= i < |v| => VariableUpdate(phi, v[i], c))
  }

  function Decision(node: VNode, c: seq<CNode>): bit {
    if Belief(node.initial, node.subs, c) < 0.0 then 1 else 0
  }

  function Decisions(v: seq<VNode>, c: seq<CNode>): seq<bit> {
    seq(|v|, i requires 0 <= i < |v| => Decision(v[i], c))
  }

  // ---------------------------------------------------------------- all iterations

  datatype Outcome = Outcome(iterations: nat, even: nat, bits: seq<bit>)

  /** The decoder from iteration iter on. */
  function Decode(phi: real -> real, c: seq<CNode>, v: seq<VNode>, iter: nat): (r: Outcome)
    requires iter < MAX_ITER
    ensures |r.bits| == |v|
    decreases MAX_ITER - iter
  {
    var c' := CheckSide(phi, c, v);
    var even := EvenChecks(c, v);
    if even == |c| || iter + 1 == MAX_ITER then
      Outcome(if even == |c| then iter + 1 else MAX_ITER, even, Decisions(v, c'))
    else Decode(phi, c', VariableSide(phi, v, c'), iter + 1)
  }

  lemma SignSnoc(subs: seq<CSub>, k: nat, v: seq<VNode>)
    requires k < |subs|
    ensures SignOf(subs[..k + 1], v) == Xor(SignOf(subs[..k], v), VOf(v, subs[k]).sign)
    ensures PhiOf(subs[..k + 1], v) == PhiOf(subs[..k], v) + VOf(v, subs[k]).message
  {
    assert subs[..k + 1][..k] == subs[..k];
  }

  predicate CheckPoints(node: CNode, v: seq<VNode>) {
    forall j :: 0 <= j < |node.subs| ==> node.subs[j].index < |v| && node.subs[j].socket < |v[node.subs[j].index].subs|
  }

  predicate VariablePoints(node: VNode, c: seq<CNode>) {
    forall j :: 0 <= j < |node.subs| ==> node.subs[j].index < |c| && node.subs[j].socket < |c[node.subs[j].index].subs|
  }

  /** Every sub-node points at one that exists: all the decoder needs to run. */
  predicate InRange(c: seq<CNode>, v: seq<VNode>) {
    && (forall p :: 0 <= p < |c| ==> |c[p].subs| > 0 && CheckPoints(c[p], v))
    && (forall i :: 0 <= i < |v| ==> VariablePoints(v[i], c))
  }

  /** The second loop of UpdateCheck: the messages to the variable nodes. */
  method SendBack(phi: real -> real, node: CNode, v: seq<VNode>, sign: bit, phiSum: real) returns (out: CNode)
    requires CheckPoints(node, v) && sign == SignOf(node.subs, v) && phiSum == PhiOf(node.subs, v)
    ensures out == CheckUpdate(phi, node, v)
  {
    var subs := node.subs;
    ghost var want := CheckUpdate(phi, node, v).subs;
    var i := 0;
    while i < |subs|
      invariant 0 <= i <= |subs| == |node.subs|
      invariant forall k :: 0 <= k < i ==> subs[k] == want[k]
      invariant forall k :: i <= k < |subs| ==> subs[k] == node.subs[k]
    {
      var vp := v[subs[i].index].subs[subs[i].socket];
      if Xor(sign, vp.sign) == 1 {
        subs := subs[i := subs[i].(message := -phi(phiSum - vp.message))];
      } else {
        subs := subs[i := subs[i].(message := phi(phiSum - vp.message))];
      }
      i := i + 1;
    }
    out := CNode(subs);
    assert subs == want;
  }

  /** The first half of an iteration, for one check node. */
  method UpdateCheck(phi: real -> real, node: CNode, v: seq<VNode>) returns (out: CNode, sign: bit)
    requires |node.subs| > 0 && CheckPoints(node, v)
    ensures out == CheckUpdate(phi, node, v) && sign == SignOf(node.subs, v)
  {
    var subs := node.subs;
    SignSnoc(subs, 0, v);
    sign := v[subs[0].index].subs[subs[0].socket].sign;
    var phiSum := v[subs[0].index].subs[subs[0].socket].message;
    var i := 1;
    while i < |subs|
      invariant 1 <= i <= |subs|
      invariant sign == SignOf(subs[..i], v) && phiSum == PhiOf(subs[..i], v)
    {
      SignSnoc(subs, i, v);
      var vp := v[subs[i].index].subs[subs[i].socket];
      phiSum := phiSum + vp.message;
      sign := Xor(sign, vp.sign);
      i := i + 1;
    }
    assert subs[..|subs|] == subs;
    out := SendBack(phi, node, v, sign, phiSum);
  }

  lemma EvenSnoc(c: seq<CNode>, j: nat, v: seq<VNode>)
    requires j < |c|
    ensures EvenChecks(c[..j + 1], v) == EvenChecks(c[..j], v) + (if SignOf(c[j].subs, v) == 0 then 1 else 0)
  {
    assert c[..j + 1][..j] == c[..j];
  }

  /** The second half, for one variable node. */
  method UpdateVariable(phi: real -> real, node: VNode, c: seq<CNode>) returns (out: VNode, decided: bit)
    requires VariablePoints(node, c)
    ensures out == VariableUpdate(phi, node, c) && decided == Decision(node, c)
  {
    var subs := node.subs;
    var q := node.initial;
    var j := 0;
    while j < |subs|
      invariant 0 <= j <= |subs|
      invariant q == Belief(node.initial, subs[..j], c)
    {
      assert subs[..j + 1][..j] == subs[..j];
      q := q + c[subs[j].index].subs[subs[j].socket].message;
      j := j + 1;
    }
    assert subs[..|subs|] == subs;
    decided := 0;
    if q < 0.0 {
      decided := 1;
    }
    ghost var want := VariableUpdate(phi, node, c).subs;
    j := 0;
    while j < |subs|
      invariant 0 <= j <= |subs| == |node.subs|
      invariant forall k :: 0 <= k < j ==> subs[k] == want[k]
      invariant forall k :: j <= k < |subs| ==> subs[k] == node.subs[k]
    {
      var rest := q - c[subs[j].index].subs[subs[j].socket].message;
      subs := subs[j := subs[j].(message := phi(Abs(rest)), sign := if rest > 0.0 then 0 else 1)];
      j := j + 1;
    }
    out := VNode(node.initial, subs);
    assert subs == want;
  }

  /** The check nodes when the first j have been dealt with. */
  ghost function CheckedUpTo(phi: real -> real, c: seq<CNode>, v: seq<VNode>, j: nat): (r: seq<CNode>)
    requires j <= |c|
    ensures |r| == |c|
  {
    CheckSide(phi, c, v)[..j] + c[j..]
  }

  lemma CheckedNext(phi: real -> real, c: seq<CNode>, v: seq<VNode>, j: nat)
    requires j < |c|
    ensures CheckedUpTo(phi, c, v, j)[j] == c[j]
    ensures CheckedUpTo(phi, c, v, j)[j := CheckUpdate(phi, c[j], v)] == CheckedUpTo(phi, c, v, j + 1)
  {
  }

  lemma CheckedEnds(phi: real -> real, c: seq<CNode>, v: seq<VNode>)
    ensures CheckedUpTo(phi, c, v, 0) == c && CheckedUpTo(phi, c, v, |c|) == CheckSide(phi, c, v)
  {
  }

  method CheckPass(phi: real -> real, c: array<CNode>, v: seq<VNode>) returns (ssum: nat)
    requires forall p :: 0 <= p < c.Length ==> |c[p].subs| > 0 && CheckPoints(c[p], v)
    modifies c
    ensures c[..] == CheckSide(phi, old(c[..]), v) && ssum == EvenChecks(old(c[..]), v)
  {
    ghost var was := c[..];
    assert forall p :: 0 <= p < |was| ==> was[p] == c[p];
    CheckedEnds(phi, was, v);
    PrefixEnds(was);
    ssum := 0;
    var j := 0;
    while j < c.Length
      invariant 0 <= j <= c.Length
      invariant c[..] == CheckedUpTo(phi, was, v, j) && ssum == EvenChecks(was[..j], v)
    {
      EvenSnoc(was, j, v);
      CheckedNext(phi, was, v, j);
      assert c[j] == c[..][j];
      var node, sign := UpdateCheck(phi, c[j], v);
      if sign == 0 {
        ssum := ssum + 1;
      }
      c[j] := node;
      j := j + 1;
    }
  }

  method VariablePass(phi: real -> real, v: array<VNode>, c: seq<CNode>, decoded: array<bit>)
    requires forall i :: 0 <= i < v.Length ==> VariablePoints(v[i], c)
    requires decoded.Length == v.Length
    modifies v, decoded
    ensures v[..] == VariableSide(phi, old(v[..]), c) && decoded[..] == Decisions(old(v[..]), c)
  {
    ghost var was := v[..];
    ghost var want, bits := VariableSide(phi, was, c), Decisions(was, c);
    var i := 0;
    while i < v.Length
      invariant 0 <= i <= v.Length
      invariant forall k :: 0 <= k < i ==> v[k] == want[k] && decoded[k] == bits[k]
      invariant forall k :: i <= k < v.Length ==> v[k] == was[k]
    {
      var node, decided := UpdateVariable(phi, v[i], c);
      decoded[i] := decided;
      v[i] := node;
      i := i + 1;
    }
    assert v[..] == want && decoded[..] == bits;
  }

  lemma CheckPassKeepsRange(phi: real -> real, c: seq<CNode>, v: seq<VNode>)
    requires InRange(c, v)
    ensures InRange(CheckSide(phi, c, v), v)
  {
    var c' := CheckSide(phi, c, v);
    forall p | 0 <= p < |c'|
      ensures |c'[p].subs| == |c[p].subs| && CheckPoints(c'[p], v)
    {
      assert c'[p] == CheckUpdate(phi, c[p], v);
    }
  }

  lemma VariablePassKeepsRange(phi: real -> real, c: seq<CNode>, v: seq<VNode>)
    requires InRange(c, v)
    ensures InRange(c, VariableSide(phi, v, c))
  {
    var v' := VariableSide(phi, v, c);
    forall i | 0 <= i < |v'|
      ensures |v'[i].subs| == |v[i].subs| && VariablePoints(v'[i], c)
    {
      assert v'[i] == VariableUpdate(phi, v[i], c);
    }
  }

  lemma LinkedInRange(c: seq<CNode>, v: seq<VNode>)
    requires Linked(c, v)
    ensures InRange(c, v)
  {
  }

  method Iteration(phi: real -> real, c: array<CNode>, v: array<VNode>, decoded: array<bit>) returns (ssum: nat)
    requires InRange(c[..], v[..]) && decoded.Length == v.Length
    modifies c, v, decoded
    ensures var c', v' := CheckSide(phi, old(c[..]), old(v[..])), old(v[..]);
            && c[..] == c' && v[..] == VariableSide(phi, v', c') && decoded[..] == Decisions(v', c')
            && ssum == EvenChecks(old(c[..]), v')
    ensures InRange(c[..], v[..])
  {
    ghost var was, beliefs := c[..], v[..];
    CheckPassKeepsRange(phi, was, beliefs);
    ssum := CheckPass(phi, c, v[..]);
    ghost var checked := c[..];
    assert v[..] == beliefs;
    VariablePassKeepsRange(phi, checked, beliefs);
    VariablePass(phi, v, c[..], decoded);
    assert c[..] == checked;
  }

  method SumProduct(phi: real -> real, c: array<CNode>, v: array<VNode>, decoded: array<bit>)
    returns (result: nat, parityCheckCount: nat)
    requires InRange(c[..], v[..]) && decoded.Length == v.Length
    modifies c, v, decoded
    ensures Outcome(result, parityCheckCount, decoded[..]) == Decode(phi, old(c[..]), old(v[..]), 0)
  {
    ghost var start := Decode(phi, c[..], v[..], 0);
    result := MAX_ITER;
    parityCheckCount := 0;
    var iter := 0;
    while iter < MAX_ITER
      invariant 0 <= iter <= MAX_ITER && result == MAX_ITER
      invariant InRange(c[..], v[..])
      invariant iter < MAX_ITER ==> Decode(phi, c[..], v[..], iter) == start
      invariant iter == MAX_ITER ==> Outcome(MAX_ITER, parityCheckCount, decoded[..]) == start
    {
      var ssum := Iteration(phi, c, v, decoded);
      parityCheckCount := ssum;
      if ssum == c.Length {
        result := iter + 1;
        break;
      }
      iter := iter + 1;
    }
  }
}
