/** What the sum-product decoder corrects: one bit whose ratio has the wrong sign, among ratios that are
    sure enough, for any tables, any codeword and any falling phi. */
module RadeCorrection {
  import opened Bytes
  import opened RadeCode
  import opened RadeGraph
  import opened RadeDecoder
  import opened RadeDecoderLaws

  /** How far r speaks for the bit w. */
  function Toward(w: bit, r: real): real { if w == 0 then r else -r }

  /** phi never rises. */
  ghost predicate Falls(phi: real -> real) { forall x, y :: x <= y ==> phi(y) <= phi(x) }

  lemma FallsAt(phi: real -> real, x: real, y: real)
    requires Falls(phi) && x <= y
    ensures phi(y) <= phi(x)
  {
  }

  function Multiple(n: nat, x: real): real { if n == 0 then 0.0 else Multiple(n - 1, x) + x }

  lemma {:induction false} MultipleMono(m: nat, n: nat, x: real)
    requires m <= n && x >= 0.0
    ensures 0.0 <= Multiple(m, x) <= Multiple(n, x)
  {
    if m < n {
      MultipleMono(m, n - 1, x);
    } else if n > 0 {
      MultipleMono(n - 1, n - 1, x);
    }
  }

  lemma Multiples(x: real)
    ensures Multiple(1, x) == x && Multiple(2, x) == 2.0 * x && Multiple(3, x) == 3.0 * x && Multiple(4, x) == 4.0 * x
  {
    assert Multiple(2, x) == Multiple(1, x) + x && Multiple(3, x) == Multiple(2, x) + x;
  }

  // ---------------------------------------------------------------- the graph keeps its shape

  predicate CShaped(code: Code, node: CNode, p: nat)
    requires Sized(code) && p < code.n
  {
    && |node.subs| == |Neighbours(code, p)|
    && forall j :: 0 <= j < |node.subs| ==>
         var i := Neighbours(code, p)[j];
         node.subs[j].index == i && (i < 2 * code.n ==> node.subs[j].socket == Place(Checks(code, i), p))
  }

  predicate VShaped(code: Code, node: VNode, i: nat)
    requires Sized(code) && i < 2 * code.n
  {
    && |node.subs| == |Checks(code, i)|
    && forall k :: 0 <= k < |node.subs| ==>
         var p := Checks(code, i)[k];
         node.subs[k].index == p && (p < code.n ==> node.subs[k].socket == Place(Neighbours(code, p), i))
  }

  /** Indices and sockets are those of the fresh graph. */
  predicate Shaped(code: Code, c: seq<CNode>, v: seq<VNode>)
    requires Sized(code)
  {
    && |c| == code.n && |v| == 2 * code.n
    && (forall p :: 0 <= p < code.n ==> CShaped(code, c[p], p))
    && (forall i :: 0 <= i < 2 * code.n ==> VShaped(code, v[i], i))
  }

  lemma FreshShaped(phi: real -> real, code: Code, llr: seq<real>)
    requires Sized(code) && |llr| == 2 * code.n
    ensures Shaped(code, CheckNodes(code), VariableNodes(phi, code, llr))
  {
    var c, v := CheckNodes(code), VariableNodes(phi, code, llr);
    assert forall p :: 0 <= p < code.n ==> c[p] == Check(code, p);
    assert forall i :: 0 <= i < 2 * code.n ==> v[i] == Variable(phi, code, i, llr[i]);
  }

  lemma CheckSideShaped(phi: real -> real, code: Code, c: seq<CNode>, v: seq<VNode>)
    requires Sized(code) && Shaped(code, c, v)
    ensures Shaped(code, CheckSide(phi, c, v), v)
  {
    var c' := CheckSide(phi, c, v);
    forall p | 0 <= p < code.n ensures CShaped(code, c'[p], p) {
      assert CShaped(code, c[p], p) && c'[p] == CheckUpdate(phi, c[p], v);
    }
  }

  lemma VariableSideShaped(phi: real -> real, code: Code, c: seq<CNode>, v: seq<VNode>)
    requires Sized(code) && Shaped(code, c, v)
    ensures Shaped(code, c, VariableSide(phi, v, c))
  {
    var v' := VariableSide(phi, v, c);
    forall i | 0 <= i < 2 * code.n ensures VShaped(code, v'[i], i) {
      assert VShaped(code, v[i], i) && v'[i] == VariableUpdate(phi, v[i], c);
    }
  }

  lemma {:induction false} AfterShaped(phi: real -> real, code: Code, c: seq<CNode>, v: seq<VNode>, k: nat)
    requires Sized(code) && Shaped(code, c, v)
    ensures Shaped(code, CAfter(phi, c, v, k), VAfter(phi, c, v, k))
  {
    if k > 0 {
      AfterShaped(phi, code, c, v, k - 1);
      CheckSideShaped(phi, code, CAfter(phi, c, v, k - 1), VAfter(phi, c, v, k - 1));
      VariableSideShaped(phi, code, CAfter(phi, c, v, k), VAfter(phi, c, v, k - 1));
    }
  }

  /** The two ends of an edge. */
  lemma EdgeEnds(code: Code, c: seq<CNode>, v: seq<VNode>, i: nat, k: nat) returns (p: nat, j: nat)
    requires Sized(code) && Transposed(code) && Shaped(code, c, v) && i < 2 * code.n && k < |v[i].subs|
    ensures p < code.n && j < |c[p].subs| == |Neighbours(code, p)| && Neighbours(code, p)[j] == i
    ensures p == Checks(code, i)[k] && v[i].subs[k].index == p && v[i].subs[k].socket == j
    ensures COf(c, v[i].subs[k]) == c[p].subs[j] && VOf(v, c[p].subs[j]) == v[i].subs[k]
  {
    assert VShaped(code, v[i], i);
    EdgeFromVariable(code, i, k);
    p := Checks(code, i)[k];
    j := Place(Neighbours(code, p), i);
    assert CShaped(code, c[p], p);
  }

  lemma CheckEdge(code: Code, c: seq<CNode>, v: seq<VNode>, p: nat, j: nat) returns (k: nat)
    requires Sized(code) && Transposed(code) && Shaped(code, c, v) && p < code.n && j < |Neighbours(code, p)|
    ensures |c[p].subs| == |Neighbours(code, p)|
    ensures var i := Neighbours(code, p)[j];
            && i < 2 * code.n && k < |v[i].subs| && VOf(v, c[p].subs[j]) == v[i].subs[k]
  {
    assert CShaped(code, c[p], p);
    EdgeFromCheck(code, p, j);
    var i := Neighbours(code, p)[j];
    assert VShaped(code, v[i], i);
    k := Place(Checks(code, i), p);
  }

  // ---------------------------------------------------------------- signs of the checks

  /** Every edge of variable i carries bit i of this word as its sign. */
  predicate Carry(v: seq<VNode>, word: seq<bit>) {
    |v| == |word| && forall i, k :: 0 <= i < |v| && 0 <= k < |v[i].subs| ==> v[i].subs[k].sign == word[i]
  }

  lemma CarriedSign(code: Code, c: seq<CNode>, v: seq<VNode>, word: seq<bit>, p: nat)
    requires Sized(code) && Transposed(code) && Shaped(code, c, v) && Carry(v, word) && p < code.n
    ensures SignOf(c[p].subs, v) == SumAt(word, Neighbours(code, p)) % 2
  {
    var ns := Neighbours(code, p);
    assert CShaped(code, c[p], p);
    forall j | 0 <= j < |ns|
      ensures VOf(v, c[p].subs[j]).sign == BitAt(word, ns[j])
    {
      var k := CheckEdge(code, c, v, p, j);
    }
    SignIsParity(c[p].subs, v, word, ns);
  }

  /** When the edges carry a codeword every check is even. */
  lemma CodewordIsEven(code: Code, c: seq<CNode>, v: seq<VNode>, word: seq<bit>)
    requires Sized(code) && Transposed(code) && Shaped(code, c, v) && Carry(v, word) && IsCodeword(code, word)
    ensures EvenChecks(c, v) == code.n
  {
    EvenChecksCounts(c, v);
    forall p | 0 <= p < code.n ensures SignOf(c[p].subs, v) == 0 {
      CarriedSign(code, c, v, word, p);
      assert Satisfied(code, word, p);
    }
  }

  function Flipped(word: seq<bit>, x: nat): (r: seq<bit>)
    requires x < |word|
    ensures |r| == |word|
  {
    word[x := 1 - word[x]]
  }

  lemma ParityStep(flipped: nat, sum: nat, one: nat, w: bit, same: bool)
    requires flipped % 2 == (sum + one) % 2 && (!same ==> one == 0)
    ensures (flipped + (if same then w else 1 - w)) % 2 == (sum + w + (if same then one else 1)) % 2
  {
    if same {
      assert (flipped + w) % 2 == (sum + one + w) % 2;
    } else if w == 0 {
      assert (flipped + 1) % 2 == (sum + 1) % 2;
    } else {
      assert flipped % 2 == (sum + 2) % 2;
    }
  }

  lemma {:induction false} FlippedSum(word: seq<bit>, x: nat, at: seq<nat>)
    requires x < |word| && Distinct(at)
    ensures SumAt(Flipped(word, x), at) % 2 == (SumAt(word, at) + (if x in at then 1 else 0)) % 2
  {
    if at != [] {
      var init, last := at[..|at| - 1], at[|at| - 1];
      FlippedSum(word, x, init);
      assert at == init + [last] && (x in at <==> x in init || x == last);
      assert x == last ==> x !in init;
      ParityStep(SumAt(Flipped(word, x), init), SumAt(word, init), if x in init then 1 else 0, BitAt(word, last),
                 x != last);
    }
  }

  lemma EvenAndOne(sum: nat, flipped: nat, one: nat)
    requires sum % 2 == 0 && one <= 1 && flipped % 2 == (sum + one) % 2
    ensures flipped % 2 == one
  {
  }

  /** With one bit flipped exactly the checks it takes part in are odd. */
  lemma FlippedSign(code: Code, c: seq<CNode>, v: seq<VNode>, word: seq<bit>, x: nat, p: nat)
    requires Sized(code) && Transposed(code) && Shaped(code, c, v) && x < |word| == 2 * code.n && IsCodeword(code, word)
    requires Carry(v, Flipped(word, x)) && p < code.n
    ensures SignOf(c[p].subs, v) == if x in Neighbours(code, p) then 1 else 0
  {
    var ns := Neighbours(code, p);
    NeighboursDistinct(code, p);
    FlippedSum(word, x, ns);
    assert Satisfied(code, word, p);
    EvenAndOne(SumAt(word, ns), SumAt(Flipped(word, x), ns), if x in ns then 1 else 0);
    CarriedSign(code, c, v, Flipped(word, x), p);
  }

  lemma {:induction false} AllButOne(c: seq<CNode>, v: seq<VNode>, p: nat)
    requires p < |c| && forall q :: 0 <= q < |c| ==> (SignOf(c[q].subs, v) == 0 <==> q != p)
    ensures EvenChecks(c, v) == |c| - 1
  {
    var init := c[..|c| - 1];
    if p < |init| {
      assert forall q :: 0 <= q < |init| ==> init[q] == c[q];
      AllButOne(init, v, p);
    } else {
      assert forall q :: 0 <= q < |init| ==> init[q] == c[q];
      EvenChecksCounts(init, v);
    }
  }

  // ---------------------------------------------------------------- what a settled iteration leads to

  /** Every belief, less what came along the edge, speaks for its bit of the word. */
  predicate Settled(v: seq<VNode>, c: seq<CNode>, word: seq<bit>) {
    |v| == |word| && forall i, j :: 0 <= i < |v| && 0 <= j < |v[i].subs| ==>
      Toward(word[i], Belief(v[i].initial, v[i].subs, c) - COf(c, v[i].subs[j]).message) > 0.0
  }

  lemma SettledCarries(phi: real -> real, v: seq<VNode>, c: seq<CNode>, word: seq<bit>)
    requires Settled(v, c, word)
    ensures Carry(VariableSide(phi, v, c), word)
  {
    var v' := VariableSide(phi, v, c);
    forall i, k | 0 <= i < |v'| && 0 <= k < |v'[i].subs|
      ensures v'[i].subs[k].sign == word[i]
    {
      assert v'[i] == VariableUpdate(phi, v[i], c);
    }
  }

  /** If after iteration k every such belief speaks for a codeword, iteration k + 1 counts every check
      even: for any phi and any input. */
  lemma SettledIsEven(phi: real -> real, code: Code, llr: seq<real>, word: seq<bit>, k: nat)
    requires Sized(code) && Transposed(code) && |llr| == |word| == 2 * code.n && IsCodeword(code, word)
    requires var c, v := CheckNodes(code), VariableNodes(phi, code, llr);
             Settled(VAfter(phi, c, v, k), CAfter(phi, c, v, k + 1), word)
    ensures var c, v := CheckNodes(code), VariableNodes(phi, code, llr);
            EvenChecks(CAfter(phi, c, v, k + 1), VAfter(phi, c, v, k + 1)) == code.n
  {
    var c, v := CheckNodes(code), VariableNodes(phi, code, llr);
    FreshShaped(phi, code, llr);
    AfterShaped(phi, code, c, v, k + 1);
    SettledCarries(phi, VAfter(phi, c, v, k), CAfter(phi, c, v, k + 1), word);
    CodewordIsEven(code, CAfter(phi, c, v, k + 1), VAfter(phi, c, v, k + 1), word);
  }

  lemma DecodeGoesOn(phi: real -> real, c: seq<CNode>, v: seq<VNode>, iter: nat)
    requires iter + 1 < MAX_ITER && EvenChecks(c, v) != |c|
    ensures var c' := CheckSide(phi, c, v);
            Decode(phi, c, v, iter) == Decode(phi, c', VariableSide(phi, v, c'), iter + 1)
  {
  }

  lemma DecodeStops(phi: real -> real, c: seq<CNode>, v: seq<VNode>, iter: nat)
    requires iter < MAX_ITER && EvenChecks(c, v) == |c|
    ensures Decode(phi, c, v, iter) == Outcome(iter + 1, |c|, Decisions(v, CheckSide(phi, c, v)))
  {
  }

  lemma AfterNext(phi: real -> real, c: seq<CNode>, v: seq<VNode>, j: nat)
    ensures var c', v' := CAfter(phi, c, v, j), VAfter(phi, c, v, j);
            && CAfter(phi, c, v, j + 1) == CheckSide(phi, c', v') && |CAfter(phi, c, v, j + 1)| == |c'|
            && VAfter(phi, c, v, j + 1) == VariableSide(phi, v', CheckSide(phi, c', v'))
  {
  }

  /** The outcome was reached before iteration k + 1, or is that of going on from there. */
  predicate AtOrPast(phi: real -> real, r: Outcome, c: seq<CNode>, v: seq<VNode>, k: nat)
    requires k < MAX_ITER
  {
    r.iterations <= k || r == Decode(phi, c, v, k)
  }

  lemma OneIterationOn(phi: real -> real, r: Outcome, c: seq<CNode>, v: seq<VNode>, c': seq<CNode>, v': seq<VNode>,
                       k: nat)
    requires k + 1 < MAX_ITER && AtOrPast(phi, r, c, v, k)
    requires c' == CheckSide(phi, c, v) && v' == VariableSide(phi, v, c')
    ensures AtOrPast(phi, r, c', v', k + 1)
  {
    if EvenChecks(c, v) == |c| {
      DecodeStops(phi, c, v, k);
    } else {
      DecodeGoesOn(phi, c, v, k);
    }
  }

  /** The decoder has stopped before iteration k + 1, or comes to it. */
  lemma {:induction false} StopsOrReaches(phi: real -> real, r: Outcome, c: seq<CNode>, v: seq<VNode>, k: nat)
    requires k < MAX_ITER && r == Decode(phi, c, v, 0)
    ensures AtOrPast(phi, r, CAfter(phi, c, v, k), VAfter(phi, c, v, k), k)
  {
    if k > 0 {
      var j := k - 1;
      StopsOrReaches(phi, r, c, v, j);
      AfterNext(phi, c, v, j);
      OneIterationOn(phi, r, CAfter(phi, c, v, j), VAfter(phi, c, v, j), CAfter(phi, c, v, j + 1),
                     VAfter(phi, c, v, j + 1), j);
    }
  }

  /** And so the decoder has stopped by then. */
  lemma SettledStops(phi: real -> real, code: Code, llr: seq<real>, word: seq<bit>, k: nat)
    requires Sized(code) && Transposed(code) && |llr| == |word| == 2 * code.n && IsCodeword(code, word)
    requires var c, v := CheckNodes(code), VariableNodes(phi, code, llr);
             Settled(VAfter(phi, c, v, k), CAfter(phi, c, v, k + 1), word)
    requires k + 1 < MAX_ITER
    ensures Decode(phi, CheckNodes(code), VariableNodes(phi, code, llr), 0).iterations <= k + 2
  {
    var c, v := CheckNodes(code), VariableNodes(phi, code, llr);
    SettledIsEven(phi, code, llr, word, k);
    FreshShaped(phi, code, llr);
    AfterShaped(phi, code, c, v, k + 1);
    StopsOrReaches(phi, Decode(phi, c, v, 0), c, v, k + 1);
    DecodeStops(phi, CAfter(phi, c, v, k + 1), VAfter(phi, c, v, k + 1), k + 1);
  }

  // ---------------------------------------------------------------- sums of messages

  lemma {:induction false} OthersAtMost(subs: seq<CSub>, v: seq<VNode>, j: nat, m: real)
    requires m >= 0.0
    requires forall h :: 0 <= h < |subs| && h != j ==> 0.0 <= VOf(v, subs[h]).message <= m
    ensures j < |subs| ==> 0.0 <= PhiOf(subs, v) - VOf(v, subs[j]).message <= Multiple(|subs| - 1, m)
    ensures j >= |subs| ==> 0.0 <= PhiOf(subs, v) <= Multiple(|subs|, m)
  {
    if subs != [] {
      OthersAtMost(subs[..|subs| - 1], v, j, m);
    }
  }

  lemma {:induction false} SomeAtLeast(subs: seq<CSub>, v: seq<VNode>, h: nat)
    requires forall g :: 0 <= g < |subs| ==> 0.0 <= VOf(v, subs[g]).message
    ensures PhiOf(subs, v) >= 0.0 && (h < |subs| ==> PhiOf(subs, v) >= VOf(v, subs[h]).message)
  {
    if subs != [] {
      SomeAtLeast(subs[..|subs| - 1], v, h);
    }
  }

  lemma {:induction false} OthersAtLeast(subs: seq<CSub>, v: seq<VNode>, j: nat, h: nat)
    requires j < |subs| && forall g :: 0 <= g < |subs| ==> 0.0 <= VOf(v, subs[g]).message
    ensures h < |subs| && h != j ==> PhiOf(subs, v) - VOf(v, subs[j]).message >= VOf(v, subs[h]).message
    ensures PhiOf(subs, v) - VOf(v, subs[j]).message >= 0.0
  {
    var init := subs[..|subs| - 1];
    if j < |init| {
      OthersAtLeast(init, v, j, h);
    } else {
      SomeAtLeast(init, v, h);
    }
    if h == |init| && j < |init| {
      OthersAtLeast(init, v, j, j);
    }
  }

  /** Messages that each speak for w by at least lo. */
  lemma {:induction false} BeliefToward(initial: real, subs: seq<VSub>, c: seq<CNode>, w: bit, lo: real, j: nat)
    requires forall k :: 0 <= k < |subs| ==> Toward(w, COf(c, subs[k]).message) >= lo
    ensures Toward(w, Belief(initial, subs, c)) >= Toward(w, initial) + Multiple(|subs|, lo)
    ensures j < |subs| ==>
              Toward(w, Belief(initial, subs, c) - COf(c, subs[j]).message)
              >= Toward(w, initial) + Multiple(|subs| - 1, lo)
  {
    if subs != [] {
      var init := subs[..|subs| - 1];
      BeliefToward(initial, init, c, w, lo, j);
      assert Toward(w, COf(c, subs[|subs| - 1]).message) >= lo;
    }
  }

  // ---------------------------------------------------------------- one bit wrong

  /** The ratio at x has the wrong sign and is at most a; all others have the right one and are at least
      b. */
  predicate OneBad(word: seq<bit>, llr: seq<real>, x: nat, a: real, b: real) {
    && x < |word| == |llr| && HardBits(llr) == Flipped(word, x) && Abs(llr[x]) <= a
    && forall i :: 0 <= i < |llr| && i != x ==> Toward(word[i], llr[i]) >= b
  }

  /** What is asked of phi and the two limits. */
  ghost predicate Corrects(phi: real -> real, a: real, b: real) {
    var n := phi(phi(a));
    a >= 0.0 && 3.0 * n < b && phi(4.0 * phi(b - 2.0 * n)) > a
  }

  /** The edges of all variables but x carry the word, with messages up to m; those of x the wrong bit
      with at least h, or the right one. */
  predicate Around(v: seq<VNode>, word: seq<bit>, x: nat, wrong: bool, m: real, h: real) {
    && x < |v| == |word| && Carry(v, if wrong then Flipped(word, x) else word)
    && (forall i, k :: 0 <= i < |v| && 0 <= k < |v[i].subs| ==> v[i].subs[k].message >= 0.0)
    && (forall i, k :: 0 <= i < |v| && i != x && 0 <= k < |v[i].subs| ==> v[i].subs[k].message <= m)
    && (wrong ==> forall k :: 0 <= k < |v[x].subs| ==> v[x].subs[k].message >= h)
  }

  /** The parity of a check under one wrong bit or none. */
  lemma EdgeSign(code: Code, c: seq<CNode>, v: seq<VNode>, word: seq<bit>, x: nat, wrong: bool, p: nat)
    requires Sized(code) && Transposed(code) && Shaped(code, c, v) && x < |word| == 2 * code.n && IsCodeword(code, word)
    requires Carry(v, if wrong then Flipped(word, x) else word) && p < code.n
    ensures SignOf(c[p].subs, v) == if wrong && x in Neighbours(code, p) then 1 else 0
  {
    if wrong {
      FlippedSign(code, c, v, word, x, p);
    } else {
      CarriedSign(code, c, v, word, p);
      assert Satisfied(code, word, p);
    }
  }

  /** What a check sends back along an edge. */
  lemma BackMessage(phi: real -> real, code: Code, c: seq<CNode>, v: seq<VNode>, p: nat, j: nat, i: nat, k: nat)
    requires Sized(code) && Transposed(code) && Shaped(code, c, v) && p < code.n && j < |c[p].subs|
    requires i < 2 * code.n && k < |v[i].subs| && COf(c, v[i].subs[k]) == c[p].subs[j]
    requires v[i].subs[k].index == p && v[i].subs[k].socket == j
    ensures COf(CheckSide(phi, c, v), v[i].subs[k]).message
         == CMessage(phi, SignOf(c[p].subs, v), PhiOf(c[p].subs, v), VOf(v, c[p].subs[j]))
  {
    assert CheckSide(phi, c, v)[p] == CheckUpdate(phi, c[p], v);
  }

  /** Whether it speaks for w is a matter of signs; how far, of the others' messages. */
  lemma MessageToward(phi: real -> real, sign: bit, total: real, e: VSub, w: bit)
    ensures Toward(w, CMessage(phi, sign, total, e))
         == if Xor(sign, e.sign) == w then phi(total - e.message) else -phi(total - e.message)
  {
  }

  /** What four others, each up to m, leave. */
  lemma FourOthers(phi: real -> real, code: Code, c: seq<CNode>, v: seq<VNode>, x: nat, m: real, p: nat, j: nat)
    requires Sized(code) && Transposed(code) && Shaped(code, c, v) && p < code.n && x < 2 * code.n
    requires Falls(phi) && m >= 0.0 && j < |Neighbours(code, p)| && Neighbours(code, p)[j] == x
    requires forall i, k :: 0 <= i < |v| && 0 <= k < |v[i].subs| ==> v[i].subs[k].message >= 0.0
    requires forall i, k :: 0 <= i < |v| && i != x && 0 <= k < |v[i].subs| ==> v[i].subs[k].message <= m
    ensures |c[p].subs| == |Neighbours(code, p)|
    ensures phi(PhiOf(c[p].subs, v) - VOf(v, c[p].subs[j]).message) >= phi(4.0 * m)
  {
    var ns, subs := Neighbours(code, p), c[p].subs;
    NeighboursDistinct(code, p);
    assert CShaped(code, c[p], p);
    forall g | 0 <= g < |subs| && g != j
      ensures 0.0 <= VOf(v, subs[g]).message <= m
    {
      var l := CheckEdge(code, c, v, p, g);
      assert ns[g] != x;
    }
    OthersAtMost(subs, v, j, m);
    MultipleMono(|subs| - 1, 4, m);
    Multiples(m);
    FallsAt(phi, PhiOf(subs, v) - VOf(v, subs[j]).message, 4.0 * m);
  }

  /** What comes back to x: it speaks for the right bit by at least phi of what four others can add up to. */
  lemma ComesToX(phi: real -> real, code: Code, c: seq<CNode>, v: seq<VNode>, word: seq<bit>, x: nat, wrong: bool,
                 m: real, h: real, k: nat)
    requires Sized(code) && Transposed(code) && Shaped(code, c, v) && |word| == 2 * code.n && IsCodeword(code, word)
    requires NonNegative(phi) && Falls(phi) && m >= 0.0 && Around(v, word, x, wrong, m, h) && k < |v[x].subs|
    ensures Toward(word[x], COf(CheckSide(phi, c, v), v[x].subs[k]).message) >= phi(4.0 * m)
  {
    var p, j := EdgeEnds(code, c, v, x, k);
    FourOthers(phi, code, c, v, x, m, p, j);
    EdgeSign(code, c, v, word, x, wrong, p);
    BackMessage(phi, code, c, v, p, j, x, k);
    MessageToward(phi, SignOf(c[p].subs, v), PhiOf(c[p].subs, v), VOf(v, c[p].subs[j]), word[x]);
  }

  /** In a check with x, what the others get is no more than phi of the message of x. */
  lemma BesideX(phi: real -> real, code: Code, c: seq<CNode>, v: seq<VNode>, x: nat, h: real, p: nat, j: nat)
    requires Sized(code) && Transposed(code) && Shaped(code, c, v) && p < code.n && x < 2 * code.n
    requires Falls(phi) && j < |Neighbours(code, p)| && Neighbours(code, p)[j] != x && x in Neighbours(code, p)
    requires forall i, k :: 0 <= i < |v| && 0 <= k < |v[i].subs| ==> v[i].subs[k].message >= 0.0
    requires forall k :: 0 <= k < |v[x].subs| ==> v[x].subs[k].message >= h
    ensures |c[p].subs| == |Neighbours(code, p)|
    ensures phi(PhiOf(c[p].subs, v) - VOf(v, c[p].subs[j]).message) <= phi(h)
  {
    var ns, subs := Neighbours(code, p), c[p].subs;
    assert CShaped(code, c[p], p);
    forall g | 0 <= g < |subs|
      ensures 0.0 <= VOf(v, subs[g]).message
    {
      var l := CheckEdge(code, c, v, p, g);
    }
    var g :| 0 <= g < |ns| && ns[g] == x;
    var l := CheckEdge(code, c, v, p, g);
    OthersAtLeast(subs, v, j, g);
    FallsAt(phi, h, PhiOf(subs, v) - VOf(v, subs[j]).message);
  }

  /** What comes back to another: against it at most phi of the message of x, and with no bit wrong, or
      from a check without x, nothing against it. */
  lemma ComesToOther(phi: real -> real, code: Code, c: seq<CNode>, v: seq<VNode>, word: seq<bit>, x: nat, wrong: bool,
                     m: real, h: real, i: nat, k: nat)
    requires Sized(code) && Transposed(code) && Shaped(code, c, v) && |word| == 2 * code.n && IsCodeword(code, word)
    requires NonNegative(phi) && Falls(phi) && Around(v, word, x, wrong, m, h)
    requires i < |v| && i != x && k < |v[i].subs|
    ensures Toward(word[i], COf(CheckSide(phi, c, v), v[i].subs[k]).message) >= if wrong then -phi(h) else 0.0
  {
    var p, j := EdgeEnds(code, c, v, i, k);
    EdgeSign(code, c, v, word, x, wrong, p);
    BackMessage(phi, code, c, v, p, j, i, k);
    MessageToward(phi, SignOf(c[p].subs, v), PhiOf(c[p].subs, v), VOf(v, c[p].subs[j]), word[i]);
    assert v[i].subs[k].sign == word[i];
    if wrong && x in Neighbours(code, p) {
      BesideX(phi, code, c, v, x, h, p, j);
    }
  }
}
