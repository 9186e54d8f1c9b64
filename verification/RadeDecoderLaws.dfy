/** What the sum-product decoder guarantees: it recognises a codeword in its first iteration, and
    its messages never leave the range fixed-point arithmetic needs. */
module RadeDecoderLaws {
  import opened Arithmetic
  import opened RadeCode
  import opened RadePhi
  import opened RadeGraph
  import opened RadeDecoder

  // ---------------------------------------------------------------- the first iteration

  function HardBits(llr: seq<real>): seq<bit> {
    seq(|llr|, i requires 0 <= i < |llr| => if llr[i] < 0.0 then 1 else 0)
  }

  lemma {:induction false} SignIsParity(subs: seq<CSub>, v: seq<VNode>, word: seq<bit>, at: seq<nat>)
    requires |subs| == |at|
    requires forall j :: 0 <= j < |subs| ==> VOf(v, subs[j]).sign == BitAt(word, at[j])
    ensures SignOf(subs, v) == SumAt(word, at) % 2
  {
    if subs != [] {
      SignIsParity(subs[..|subs| - 1], v, word, at[..|at| - 1]);
    }
  }

  /** In the fresh graph every edge of a variable carries that variable's sign. */
  lemma FreshSigns(phi: real -> real, code: Code, llr: seq<real>, p: nat)
    requires Sized(code) && Transposed(code) && |llr| == 2 * code.n && p < code.n
    ensures var c, v := CheckNodes(code), VariableNodes(phi, code, llr);
            SignOf(c[p].subs, v) == SumAt(HardBits(llr), Neighbours(code, p)) % 2
  {
    var c, v := CheckNodes(code), VariableNodes(phi, code, llr);
    var ns := Neighbours(code, p);
    forall j | 0 <= j < |ns|
      ensures VOf(v, c[p].subs[j]).sign == BitAt(HardBits(llr), ns[j])
    {
      EdgeFromCheck(code, p, j);
      assert v[ns[j]] == Variable(phi, code, ns[j], llr[ns[j]]);
    }
    SignIsParity(c[p].subs, v, HardBits(llr), ns);
  }

  lemma {:induction false} EvenChecksCounts(c: seq<CNode>, v: seq<VNode>)
    ensures EvenChecks(c, v) <= |c|
    ensures EvenChecks(c, v) == |c| <==> forall p :: 0 <= p < |c| ==> SignOf(c[p].subs, v) == 0
  {
    if c != [] {
      var init := c[..|c| - 1];
      EvenChecksCounts(init, v);
      if EvenChecks(c, v) == |c| {
        forall p | 0 <= p < |c|
          ensures SignOf(c[p].subs, v) == 0
        {
          assert p < |init| ==> SignOf(init[p].subs, v) == 0;
        }
      }
      if forall p :: 0 <= p < |c| ==> SignOf(c[p].subs, v) == 0 {
        assert forall p :: 0 <= p < |init| ==> init[p] == c[p];
      }
    }
  }

  /** The first iteration finds every check even exactly when the signs are a codeword. */
  lemma FirstCountIffCodeword(phi: real -> real, code: Code, llr: seq<real>)
    requires Sized(code) && Transposed(code) && |llr| == 2 * code.n
    ensures EvenChecks(CheckNodes(code), VariableNodes(phi, code, llr)) == code.n
       <==> IsCodeword(code, HardBits(llr))
  {
    var c, v, word := CheckNodes(code), VariableNodes(phi, code, llr), HardBits(llr);
    EvenChecksCounts(c, v);
    forall p | 0 <= p < code.n
      ensures SignOf(c[p].subs, v) == 0 <==> Satisfied(code, word, p)
    {
      FreshSigns(phi, code, llr, p);
    }
  }

  ghost predicate NonNegative(phi: real -> real) { forall x :: phi(x) >= 0.0 }

  lemma {:induction false} BeliefSign(initial: real, subs: seq<VSub>, c: seq<CNode>)
    ensures initial >= 0.0 && (forall j :: 0 <= j < |subs| ==> COf(c, subs[j]).message >= 0.0) ==>
              Belief(initial, subs, c) >= 0.0
    ensures initial < 0.0 && (forall j :: 0 <= j < |subs| ==> COf(c, subs[j]).message <= 0.0) ==>
              Belief(initial, subs, c) < 0.0
  {
    if subs != [] {
      BeliefSign(initial, subs[..|subs| - 1], c);
    }
  }

  /** When all checks are even, what comes back along an edge agrees with the variable's own sign. */
  lemma FirstMessage(phi: real -> real, code: Code, llr: seq<real>, i: nat, k: nat)
    requires Sized(code) && Transposed(code) && |llr| == 2 * code.n && i < 2 * code.n && k < |Checks(code, i)|
    requires NonNegative(phi) && IsCodeword(code, HardBits(llr))
    ensures var c, v := CheckNodes(code), VariableNodes(phi, code, llr);
            var m := COf(CheckSide(phi, c, v), v[i].subs[k]).message;
            if llr[i] < 0.0 then m <= 0.0 else m >= 0.0
  {
    var c, v := CheckNodes(code), VariableNodes(phi, code, llr);
    EdgeFromVariable(code, i, k);
    var p := Checks(code, i)[k];
    var j := Place(Neighbours(code, p), i);
    assert v[i] == Variable(phi, code, i, llr[i]);
    assert c[p] == Check(code, p);
    assert Satisfied(code, HardBits(llr), p);
    FreshSigns(phi, code, llr, p);
    assert VOf(v, c[p].subs[j]) == v[i].subs[k];
    assert CheckSide(phi, c, v)[p] == CheckUpdate(phi, c[p], v);
  }

  lemma FirstDecision(phi: real -> real, code: Code, llr: seq<real>, i: nat)
    requires Sized(code) && Transposed(code) && |llr| == 2 * code.n && i < 2 * code.n
    requires NonNegative(phi) && IsCodeword(code, HardBits(llr))
    ensures var c, v := CheckNodes(code), VariableNodes(phi, code, llr);
            Decision(v[i], CheckSide(phi, c, v)) == HardBits(llr)[i]
  {
    var c, v := CheckNodes(code), VariableNodes(phi, code, llr);
    assert v[i] == Variable(phi, code, i, llr[i]);
    forall k | 0 <= k < |v[i].subs|
      ensures var m := COf(CheckSide(phi, c, v), v[i].subs[k]).message;
              if llr[i] < 0.0 then m <= 0.0 else m >= 0.0
    {
      FirstMessage(phi, code, llr, i, k);
    }
    BeliefSign(llr[i], v[i].subs, CheckSide(phi, c, v));
  }

  lemma {:induction false} IterationsGrow(phi: real -> real, c: seq<CNode>, v: seq<VNode>, iter: nat)
    requires iter < MAX_ITER
    ensures Decode(phi, c, v, iter).iterations > iter
    decreases MAX_ITER - iter
  {
    if EvenChecks(c, v) != |c| && iter + 1 < MAX_ITER {
      var c' := CheckSide(phi, c, v);
      IterationsGrow(phi, c', VariableSide(phi, v, c'), iter + 1);
    }
  }

  /** The decoder stops in its first iteration with every check even exactly when the signs of its
      input are a codeword, and then that codeword is its output: for any transposed tables and any
      non-negative phi. */
  lemma CodewordIffFirstIteration(phi: real -> real, code: Code, llr: seq<real>)
    requires Sized(code) && Transposed(code) && |llr| == 2 * code.n && NonNegative(phi)
    ensures var r := Decode(phi, CheckNodes(code), VariableNodes(phi, code, llr), 0);
            && (IsCodeword(code, HardBits(llr)) <==> r.iterations == 1)
            && (IsCodeword(code, HardBits(llr)) ==> r == Outcome(1, code.n, HardBits(llr)))
  {
    var c, v := CheckNodes(code), VariableNodes(phi, code, llr);
    FirstCountIffCodeword(phi, code, llr);
    if IsCodeword(code, HardBits(llr)) {
      var bits := Decisions(v, CheckSide(phi, c, v));
      forall i | 0 <= i < |v|
        ensures bits[i] == HardBits(llr)[i]
      {
        FirstDecision(phi, code, llr, i);
      }
      assert bits == HardBits(llr);
    } else {
      IterationsGrow(phi, CheckSide(phi, c, v), VariableSide(phi, v, CheckSide(phi, c, v)), 1);
    }
  }

  // ---------------------------------------------------------------- message bounds

  function CAfter(phi: real -> real, c: seq<CNode>, v: seq<VNode>, k: nat): seq<CNode>
    decreases k, 0
  {
    if k == 0 then c else CheckSide(phi, CAfter(phi, c, v, k - 1), VAfter(phi, c, v, k - 1))
  }

  function VAfter(phi: real -> real, c: seq<CNode>, v: seq<VNode>, k: nat): seq<VNode>
    decreases k, 1
  {
    if k == 0 then v else VariableSide(phi, VAfter(phi, c, v, k - 1), CAfter(phi, c, v, k))
  }

  ghost predicate UpToTen(phi: real -> real) { forall x :: 0.0 <= phi(x) <= 10.0 }

  predicate CBounded(c: seq<CNode>) {
    forall p, j :: 0 <= p < |c| && 0 <= j < |c[p].subs| ==> -10.0 <= c[p].subs[j].message <= 10.0
  }

  predicate VBounded(v: seq<VNode>) {
    forall i, j :: 0 <= i < |v| && 0 <= j < |v[i].subs| ==> 0.0 <= v[i].subs[j].message <= 10.0
  }

  /** Nodes of a graph with at most five edges per check and three per variable. */
  predicate Slim(c: seq<CNode>, v: seq<VNode>) {
    && (forall p :: 0 <= p < |c| ==> |c[p].subs| <= WEIGHT + 2)
    && (forall i :: 0 <= i < |v| ==> |v[i].subs| <= WEIGHT)
  }

  predicate SameInputs(v: seq<VNode>, w: seq<VNode>) {
    |v| == |w| && forall i :: 0 <= i < |v| ==> v[i].initial == w[i].initial
  }

  lemma {:induction false} PhiOfBounds(subs: seq<CSub>, v: seq<VNode>, j: nat)
    requires VBounded(v) && j < |subs|
    ensures 0.0 <= PhiOf(subs, v) <= 10.0 * (|subs| as real)
    ensures 0.0 <= PhiOf(subs, v) - VOf(v, subs[j]).message <= 10.0 * ((|subs| - 1) as real)
  {
    var init := subs[..|subs| - 1];
    var last := VOf(v, subs[|subs| - 1]).message;
    assert 0.0 <= last <= 10.0;
    if init != [] {
      PhiOfBounds(init, v, if j < |init| then j else 0);
    }
  }

  lemma {:induction false} BeliefBounds(initial: real, subs: seq<VSub>, c: seq<CNode>, j: nat)
    requires CBounded(c)
    ensures Abs(Belief(initial, subs, c)) <= Abs(initial) + 10.0 * (|subs| as real)
    ensures j < |subs| ==>
              Abs(Belief(initial, subs, c) - COf(c, subs[j]).message) <= Abs(initial) + 10.0 * ((|subs| - 1) as real)
  {
    if subs != [] {
      var init := subs[..|subs| - 1];
      BeliefBounds(initial, init, c, j);
      assert -10.0 <= COf(c, subs[|subs| - 1]).message <= 10.0;
    }
  }

  lemma CheckSideBounded(phi: real -> real, c: seq<CNode>, v: seq<VNode>)
    requires UpToTen(phi) && Slim(c, v)
    ensures CBounded(CheckSide(phi, c, v)) && Slim(CheckSide(phi, c, v), v)
  {
    var c' := CheckSide(phi, c, v);
    forall p | 0 <= p < |c'|
      ensures |c'[p].subs| == |c[p].subs|
      ensures forall j :: 0 <= j < |c'[p].subs| ==> -10.0 <= c'[p].subs[j].message <= 10.0
    {
      assert c'[p] == CheckUpdate(phi, c[p], v);
    }
  }

  lemma VariableSideBounded(phi: real -> real, v: seq<VNode>, c: seq<CNode>)
    requires UpToTen(phi) && Slim(c, v)
    ensures VBounded(VariableSide(phi, v, c)) && Slim(c, VariableSide(phi, v, c))
    ensures SameInputs(v, VariableSide(phi, v, c))
  {
    var v' := VariableSide(phi, v, c);
    forall i | 0 <= i < |v'|
      ensures |v'[i].subs| == |v[i].subs| && v'[i].initial == v[i].initial
      ensures forall j :: 0 <= j < |v'[i].subs| ==> 0.0 <= v'[i].subs[j].message <= 10.0
    {
      assert v'[i] == VariableUpdate(phi, v[i], c);
    }
  }

  lemma {:induction false} MessagesBounded(phi: real -> real, c: seq<CNode>, v: seq<VNode>, k: nat)
    requires UpToTen(phi) && CBounded(c) && VBounded(v) && Slim(c, v)
    ensures CBounded(CAfter(phi, c, v, k)) && VBounded(VAfter(phi, c, v, k))
    ensures Slim(CAfter(phi, c, v, k), VAfter(phi, c, v, k)) && SameInputs(v, VAfter(phi, c, v, k))
  {
    if k > 0 {
      MessagesBounded(phi, c, v, k - 1);
      CheckSideBounded(phi, CAfter(phi, c, v, k - 1), VAfter(phi, c, v, k - 1));
      VariableSideBounded(phi, VAfter(phi, c, v, k - 1), CAfter(phi, c, v, k));
    }
  }

  /** The fixed-point conversion of x fits a 32-bit integer. */
  predicate Fits(x: real) { -0x8000_0000 <= Si16(x) < 0x8000_0000 }

  lemma SmallFits(x: real)
    requires -32767.0 <= x <= 32767.0
    ensures Fits(x)
  {
  }

  /** The arguments phi0 is given in one iteration, the beliefs in between, and the messages. */
  predicate Contained(c0: seq<CNode>, v0: seq<VNode>, c1: seq<CNode>) {
    && CBounded(c1) && VBounded(v0)
    && (forall p, j :: 0 <= p < |c0| && 0 <= j < |c0[p].subs| ==>
          Fits(PhiOf(c0[p].subs, v0) - VOf(v0, c0[p].subs[j]).message))
    && (forall i, j :: 0 <= i < |v0| && 0 <= j < |v0[i].subs| ==>
          Fits(Abs(Belief(v0[i].initial, v0[i].subs, c1) - COf(c1, v0[i].subs[j]).message)))
    && (forall i :: 0 <= i < |v0| ==>
          Abs(Belief(v0[i].initial, v0[i].subs, c1)) <= Abs(v0[i].initial) + 30.0)
  }

  lemma IterationContained(c0: seq<CNode>, v0: seq<VNode>, c1: seq<CNode>)
    requires CBounded(c1) && VBounded(v0) && Slim(c0, v0)
    requires forall i :: 0 <= i < |v0| ==> Abs(v0[i].initial) < 32000.0
    ensures Contained(c0, v0, c1)
  {
    forall p, j | 0 <= p < |c0| && 0 <= j < |c0[p].subs|
      ensures Fits(PhiOf(c0[p].subs, v0) - VOf(v0, c0[p].subs[j]).message)
    {
      PhiOfBounds(c0[p].subs, v0, j);
      SmallFits(PhiOf(c0[p].subs, v0) - VOf(v0, c0[p].subs[j]).message);
    }
    forall i, j | 0 <= i < |v0| && 0 <= j < |v0[i].subs|
      ensures Fits(Abs(Belief(v0[i].initial, v0[i].subs, c1) - COf(c1, v0[i].subs[j]).message))
    {
      BeliefBounds(v0[i].initial, v0[i].subs, c1, j);
      SmallFits(Abs(Belief(v0[i].initial, v0[i].subs, c1) - COf(c1, v0[i].subs[j]).message));
    }
    forall i | 0 <= i < |v0|
      ensures Abs(Belief(v0[i].initial, v0[i].subs, c1)) <= Abs(v0[i].initial) + 30.0
    {
      BeliefBounds(v0[i].initial, v0[i].subs, c1, 0);
    }
  }

  /** In every iteration whatever phi0 is given fits, as long as the input stays below 32000; check
      messages stay within ten and beliefs within thirty of the input. */
  lemma EveryConversionFits(phi: real -> real, c: seq<CNode>, v: seq<VNode>, k: nat)
    requires UpToTen(phi) && CBounded(c) && VBounded(v) && Slim(c, v)
    requires forall i :: 0 <= i < |v| ==> Abs(v[i].initial) < 32000.0
    ensures Contained(CAfter(phi, c, v, k), VAfter(phi, c, v, k), CAfter(phi, c, v, k + 1))
    ensures SameInputs(v, VAfter(phi, c, v, k))
  {
    MessagesBounded(phi, c, v, k);
    MessagesBounded(phi, c, v, k + 1);
    IterationContained(CAfter(phi, c, v, k), VAfter(phi, c, v, k), CAfter(phi, c, v, k + 1));
  }

  /** The graph the decoder starts from meets those bounds. */
  lemma FreshGraphBounded(code: Code, llr: seq<real>)
    requires Sized(code) && Transposed(code) && |llr| == 2 * code.n
    ensures UpToTen(Phi0) && NonNegative(Phi0)
    ensures CBounded(CheckNodes(code)) && VBounded(VariableNodes(Phi0, code, llr))
    ensures Slim(CheckNodes(code), VariableNodes(Phi0, code, llr))
  {
    forall x: real
      ensures 0.0 <= Phi0(x) <= 10.0
    {
      PhiAntitone(x, x);
    }
    var c, v := CheckNodes(code), VariableNodes(Phi0, code, llr);
    forall p | 0 <= p < |c|
      ensures |c[p].subs| <= WEIGHT + 2
    {
      assert c[p] == Check(code, p);
      ListsDistinct(code, p, 0);
    }
    forall i | 0 <= i < |v|
      ensures |v[i].subs| <= WEIGHT
    {
      assert v[i] == Variable(Phi0, code, i, llr[i]);
      ListsDistinct(code, 0, i);
    }
  }

  /** The actual decoder stays in range when its nodes are set up and in every iteration, for every
      input below 32000. */
  lemma DecoderStaysInRange(code: Code, llr: seq<real>, k: nat)
    requires Sized(code) && Transposed(code) && |llr| == 2 * code.n
    requires forall i :: 0 <= i < |llr| ==> Abs(llr[i]) < 32000.0
    ensures var c, v := CheckNodes(code), VariableNodes(Phi0, code, llr);
            Contained(CAfter(Phi0, c, v, k), VAfter(Phi0, c, v, k), CAfter(Phi0, c, v, k + 1))
            && SameInputs(v, VAfter(Phi0, c, v, k))
    ensures forall i :: 0 <= i < |llr| ==> Fits(Abs(llr[i]))
  {
    var c, v := CheckNodes(code), VariableNodes(Phi0, code, llr);
    FreshGraphBounded(code, llr);
    forall i | 0 <= i < |llr|
      ensures Fits(Abs(llr[i]))
    {
      SmallFits(Abs(llr[i]));
    }
    forall i | 0 <= i < |v|
      ensures Abs(v[i].initial) < 32000.0
    {
      assert v[i] == Variable(Phi0, code, i, llr[i]);
    }
    EveryConversionFits(Phi0, c, v, k);
  }
}
