/** One ratio of the wrong sign: the decoder comes back to the codeword, in two iterations when the bit
    takes part in two checks or more. */
module RadeOneBad {
  import opened Bytes
  import opened RadeCode
  import opened RadeGraph
  import opened RadeDecoder
  import opened RadeDecoderLaws
  import opened RadeCorrection

  /** The decoder's input is a codeword with one bad ratio, and phi is equal to it. */
  ghost predicate Case(phi: real -> real, code: Code, word: seq<bit>, llr: seq<real>, x: nat, a: real, b: real) {
    && Sized(code) && Transposed(code) && |word| == |llr| == 2 * code.n && x < 2 * code.n && IsCodeword(code, word)
    && NonNegative(phi) && Falls(phi) && Corrects(phi, a, b) && OneBad(word, llr, x, a, b)
  }

  /** The most a check can send against a bit that is right. */
  function Against(phi: real -> real, a: real): real { phi(phi(a)) }

  /** The largest message of a variable other than x. */
  function Loudest(phi: real -> real, a: real, b: real): real { phi(b - 2.0 * Against(phi, a)) }

  /** Where the decoder stands between two iterations. */
  ghost predicate Stands(phi: real -> real, code: Code, c: seq<CNode>, v: seq<VNode>, word: seq<bit>, llr: seq<real>,
                         x: nat, wrong: bool, a: real, b: real)
    requires Sized(code) && |llr| == 2 * code.n
  {
    && Shaped(code, c, v) && (forall i :: 0 <= i < |v| ==> v[i].initial == llr[i])
    && Around(v, word, x, wrong, Loudest(phi, a, b), phi(a))
  }

  lemma Margins(phi: real -> real, a: real, b: real)
    requires NonNegative(phi) && Falls(phi) && Corrects(phi, a, b)
    ensures Against(phi, a) >= 0.0 && Loudest(phi, a, b) >= 0.0 && phi(4.0 * Loudest(phi, a, b)) > a >= 0.0
    ensures phi(b) <= Loudest(phi, a, b) && b - 2.0 * Against(phi, a) > 0.0 && b - 3.0 * Against(phi, a) > 0.0
  {
    FallsAt(phi, b - 2.0 * Against(phi, a), b);
  }

  lemma {:induction false} MultipleNeg(n: nat, x: real)
    ensures Multiple(n, -x) == -Multiple(n, x)
  {
    if n > 0 {
      MultipleNeg(n - 1, x);
    }
  }

  /** Up to three messages that are each at least -x. */
  lemma ThreeAgainst(n: nat, x: real)
    requires n <= 3 && x >= 0.0
    ensures Multiple(n, -x) >= -3.0 * x && (n <= 2 ==> Multiple(n, -x) >= -2.0 * x)
  {
    MultipleNeg(n, x);
    Multiples(x);
    MultipleMono(n, 3, x);
    if n <= 2 {
      MultipleMono(n, 2, x);
    }
  }

  /** The decoder's start. */
  lemma StartStands(phi: real -> real, code: Code, word: seq<bit>, llr: seq<real>, x: nat, a: real, b: real)
    requires Case(phi, code, word, llr, x, a, b)
    ensures Stands(phi, code, CheckNodes(code), VariableNodes(phi, code, llr), word, llr, x, true, a, b)
  {
    var v, m := VariableNodes(phi, code, llr), Loudest(phi, a, b);
    FreshShaped(phi, code, llr);
    Margins(phi, a, b);
    forall i | 0 <= i < |v|
      ensures v[i].initial == llr[i]
      ensures forall k :: 0 <= k < |v[i].subs| ==>
                v[i].subs[k].sign == HardBits(llr)[i] && v[i].subs[k].message == phi(Abs(llr[i]))
      ensures i != x ==> phi(Abs(llr[i])) <= m
    {
      assert v[i] == Variable(phi, code, i, llr[i]);
      if i != x {
        FallsAt(phi, b, Abs(llr[i]));
      }
    }
    FallsAt(phi, Abs(llr[x]), a);
  }

  // ---------------------------------------------------------------- beliefs

  /** Up to three messages against what is sure. */
  lemma SureBelief(initial: real, subs: seq<VSub>, c: seq<CNode>, w: bit, n: real, b: real)
    requires |subs| <= 3 && n >= 0.0 && Toward(w, initial) >= b
    requires forall k :: 0 <= k < |subs| ==> Toward(w, COf(c, subs[k]).message) >= -n
    ensures Toward(w, Belief(initial, subs, c)) >= b - 3.0 * n
    ensures forall j :: 0 <= j < |subs| ==>
              Toward(w, Belief(initial, subs, c) - COf(c, subs[j]).message) >= b - 2.0 * n
  {
    BeliefToward(initial, subs, c, w, -n, 0);
    ThreeAgainst(|subs|, n);
    forall j | 0 <= j < |subs|
      ensures Toward(w, Belief(initial, subs, c) - COf(c, subs[j]).message) >= b - 2.0 * n
    {
      BeliefToward(initial, subs, c, w, -n, j);
      ThreeAgainst(|subs| - 1, n);
    }
  }

  /** Messages that are each louder than what is wrong. */
  lemma LoudBelief(initial: real, subs: seq<VSub>, c: seq<CNode>, w: bit, lo: real, a: real)
    requires |subs| > 0 && lo > a >= 0.0 && Toward(w, initial) >= -a
    requires forall k :: 0 <= k < |subs| ==> Toward(w, COf(c, subs[k]).message) >= lo
    ensures Toward(w, Belief(initial, subs, c)) > 0.0
    ensures |subs| > 1 ==> forall j :: 0 <= j < |subs| ==>
              Toward(w, Belief(initial, subs, c) - COf(c, subs[j]).message) > 0.0
  {
    Multiples(lo);
    MultipleMono(1, |subs|, lo);
    BeliefToward(initial, subs, c, w, lo, 0);
    if |subs| > 1 {
      MultipleMono(1, |subs| - 1, lo);
      forall j | 0 <= j < |subs|
        ensures Toward(w, Belief(initial, subs, c) - COf(c, subs[j]).message) > 0.0
      {
        BeliefToward(initial, subs, c, w, lo, j);
      }
    }
  }

  /** What the variables hear in one iteration: the others nothing worse than -n, x at least lo. */
  predicate Told(v: seq<VNode>, c: seq<CNode>, word: seq<bit>, llr: seq<real>, x: nat, n: real, lo: real) {
    && x < |v| == |word| == |llr| && (forall i :: 0 <= i < |v| ==> |v[i].subs| <= 3 && v[i].initial == llr[i])
    && (forall i, k :: 0 <= i < |v| && i != x && 0 <= k < |v[i].subs| ==>
          Toward(word[i], COf(c, v[i].subs[k]).message) >= -n)
    && (forall k :: 0 <= k < |v[x].subs| ==> Toward(word[x], COf(c, v[x].subs[k]).message) >= lo)
  }

  lemma TellsAll(phi: real -> real, code: Code, c: seq<CNode>, v: seq<VNode>, word: seq<bit>, llr: seq<real>,
                 x: nat, wrong: bool, a: real, b: real)
    requires Case(phi, code, word, llr, x, a, b) && Stands(phi, code, c, v, word, llr, x, wrong, a, b)
    ensures Told(v, CheckSide(phi, c, v), word, llr, x, Against(phi, a), phi(4.0 * Loudest(phi, a, b)))
    ensures |v[x].subs| == |Checks(code, x)|
  {
    var c' := CheckSide(phi, c, v);
    Margins(phi, a, b);
    assert VShaped(code, v[x], x);
    forall i | 0 <= i < |v| ensures |v[i].subs| <= 3 {
      assert VShaped(code, v[i], i);
      ChecksDistinct(code, i);
    }
    forall i, k | 0 <= i < |v| && i != x && 0 <= k < |v[i].subs|
      ensures Toward(word[i], COf(c', v[i].subs[k]).message) >= -Against(phi, a)
    {
      ComesToOther(phi, code, c, v, word, x, wrong, Loudest(phi, a, b), phi(a), i, k);
    }
    forall k | 0 <= k < |v[x].subs|
      ensures Toward(word[x], COf(c', v[x].subs[k]).message) >= phi(4.0 * Loudest(phi, a, b))
    {
      ComesToX(phi, code, c, v, word, x, wrong, Loudest(phi, a, b), phi(a), k);
    }
  }

  /** Limits and input, without phi. */
  predicate Limits(word: seq<bit>, llr: seq<real>, x: nat, a: real, b: real, n: real, lo: real) {
    lo > a >= 0.0 && n >= 0.0 && b > 3.0 * n && OneBad(word, llr, x, a, b)
  }

  lemma OtherDecides(v: seq<VNode>, c: seq<CNode>, word: seq<bit>, llr: seq<real>, x: nat, a: real, b: real, n: real,
                     lo: real, i: nat)
    requires Told(v, c, word, llr, x, n, lo) && Limits(word, llr, x, a, b, n, lo) && i < |v| && i != x
    ensures Decision(v[i], c) == word[i]
  {
    SureBelief(v[i].initial, v[i].subs, c, word[i], n, b);
  }

  lemma BadDecides(v: seq<VNode>, c: seq<CNode>, word: seq<bit>, llr: seq<real>, x: nat, a: real, b: real, n: real,
                   lo: real)
    requires Told(v, c, word, llr, x, n, lo) && Limits(word, llr, x, a, b, n, lo) && v[x].subs != []
    ensures Decision(v[x], c) == word[x]
  {
    LoudBelief(v[x].initial, v[x].subs, c, word[x], lo, a);
  }

  /** Every iteration's decisions are the word. */
  lemma DecidesWord(v: seq<VNode>, c: seq<CNode>, word: seq<bit>, llr: seq<real>, x: nat, a: real, b: real, n: real,
                    lo: real)
    requires Told(v, c, word, llr, x, n, lo) && Limits(word, llr, x, a, b, n, lo) && v[x].subs != []
    ensures Decisions(v, c) == word
  {
    forall i | 0 <= i < |word|
      ensures Decision(v[i], c) == word[i]
    {
      if i == x {
        BadDecides(v, c, word, llr, x, a, b, n, lo);
      } else {
        OtherDecides(v, c, word, llr, x, a, b, n, lo, i);
      }
    }
  }

  // ---------------------------------------------------------------- the next iteration

  /** The bit is put right along all its edges: it has more than one check, or nothing to say. */
  predicate Mends(code: Code, llr: seq<real>, x: nat)
    requires Sized(code) && x < 2 * code.n == |llr|
  {
    |Checks(code, x)| > 1 || llr[x] == 0.0
  }

  /** A single check's edge hears its own ratio again. */
  lemma OnlyItself(initial: real, subs: seq<VSub>, c: seq<CNode>)
    requires |subs| == 1
    ensures Belief(initial, subs, c) - COf(c, subs[0]).message == initial
  {
    assert subs[..0] == [];
  }

  /** What the variables send next. */
  lemma OtherSends(phi: real -> real, v: seq<VNode>, c: seq<CNode>, word: seq<bit>, llr: seq<real>, x: nat, a: real,
                   b: real, n: real, lo: real, i: nat, k: nat)
    requires Told(v, c, word, llr, x, n, lo) && Limits(word, llr, x, a, b, n, lo) && NonNegative(phi) && Falls(phi)
    requires i < |v| && i != x && k < |v[i].subs|
    ensures var s := VUpdate(phi, Belief(v[i].initial, v[i].subs, c), c, v[i].subs[k]);
            s.sign == word[i] && 0.0 <= s.message <= phi(b - 2.0 * n)
  {
    SureBelief(v[i].initial, v[i].subs, c, word[i], n, b);
    FallsAt(phi, b - 2.0 * n, Abs(Belief(v[i].initial, v[i].subs, c) - COf(c, v[i].subs[k]).message));
  }

  lemma BadSends(phi: real -> real, v: seq<VNode>, c: seq<CNode>, word: seq<bit>, llr: seq<real>, x: nat, a: real,
                 b: real, n: real, lo: real, k: nat)
    requires Told(v, c, word, llr, x, n, lo) && Limits(word, llr, x, a, b, n, lo) && NonNegative(phi) && Falls(phi)
    requires k < |v[x].subs|
    ensures var s := VUpdate(phi, Belief(v[x].initial, v[x].subs, c), c, v[x].subs[k]);
            && s.message >= 0.0
            && (if |v[x].subs| > 1 || llr[x] == 0.0 then s.sign == word[x]
                else s.sign == 1 - word[x] && s.message >= phi(a))
  {
    if |v[x].subs| > 1 {
      LoudBelief(v[x].initial, v[x].subs, c, word[x], lo, a);
    } else {
      OnlyItself(v[x].initial, v[x].subs, c);
      FallsAt(phi, Abs(llr[x]), a);
      assert HardBits(llr)[x] == 1 - word[x];
    }
  }

  /** The limits that hold in a case. */
  lemma CaseLimits(phi: real -> real, code: Code, word: seq<bit>, llr: seq<real>, x: nat, a: real, b: real)
    requires Case(phi, code, word, llr, x, a, b)
    ensures Limits(word, llr, x, a, b, Against(phi, a), phi(4.0 * Loudest(phi, a, b)))
  {
    Margins(phi, a, b);
  }

  /** The variables after one more iteration. */
  lemma NextAround(phi: real -> real, v: seq<VNode>, c: seq<CNode>, word: seq<bit>, llr: seq<real>, x: nat, a: real,
                   b: real, n: real, lo: real)
    requires Told(v, c, word, llr, x, n, lo) && Limits(word, llr, x, a, b, n, lo) && NonNegative(phi) && Falls(phi)
    ensures Around(VariableSide(phi, v, c), word, x, !(|v[x].subs| > 1 || llr[x] == 0.0), phi(b - 2.0 * n), phi(a))
  {
    var v' := VariableSide(phi, v, c);
    forall i, k | 0 <= i < |v'| && i != x && 0 <= k < |v'[i].subs|
      ensures v'[i].subs[k].sign == word[i] && 0.0 <= v'[i].subs[k].message <= phi(b - 2.0 * n)
    {
      OtherSends(phi, v, c, word, llr, x, a, b, n, lo, i, k);
    }
    forall k | 0 <= k < |v'[x].subs|
      ensures v'[x].subs[k].message >= 0.0
      ensures if |v[x].subs| > 1 || llr[x] == 0.0 then v'[x].subs[k].sign == word[x]
              else v'[x].subs[k].sign == 1 - word[x] && v'[x].subs[k].message >= phi(a)
    {
      BadSends(phi, v, c, word, llr, x, a, b, n, lo, k);
    }
  }

  lemma NextStands(phi: real -> real, code: Code, c: seq<CNode>, v: seq<VNode>, word: seq<bit>, llr: seq<real>,
                   x: nat, wrong: bool, a: real, b: real)
    requires Case(phi, code, word, llr, x, a, b) && Stands(phi, code, c, v, word, llr, x, wrong, a, b)
    ensures var c' := CheckSide(phi, c, v);
            Stands(phi, code, c', VariableSide(phi, v, c'), word, llr, x, !Mends(code, llr, x), a, b)
  {
    var c' := CheckSide(phi, c, v);
    var v' := VariableSide(phi, v, c');
    CheckSideShaped(phi, code, c, v);
    VariableSideShaped(phi, code, c', v);
    assert forall i :: 0 <= i < |v| ==> v'[i].initial == v[i].initial;
    CaseLimits(phi, code, word, llr, x, a, b);
    TellsAll(phi, code, c, v, word, llr, x, wrong, a, b);
    NextAround(phi, v, c', word, llr, x, a, b, Against(phi, a), phi(4.0 * Loudest(phi, a, b)));
  }

  /** And what it decides. */
  lemma Decides(phi: real -> real, code: Code, c: seq<CNode>, v: seq<VNode>, word: seq<bit>, llr: seq<real>,
                x: nat, wrong: bool, a: real, b: real)
    requires Case(phi, code, word, llr, x, a, b) && Stands(phi, code, c, v, word, llr, x, wrong, a, b)
    requires |Checks(code, x)| > 0
    ensures Decisions(v, CheckSide(phi, c, v)) == word
  {
    CaseLimits(phi, code, word, llr, x, a, b);
    TellsAll(phi, code, c, v, word, llr, x, wrong, a, b);
    DecidesWord(v, CheckSide(phi, c, v), word, llr, x, a, b, Against(phi, a), phi(4.0 * Loudest(phi, a, b)));
  }

  // ---------------------------------------------------------------- the decoder

  /** Exactly the checks of x are odd while it is wrong. */
  lemma WrongSigns(code: Code, c: seq<CNode>, v: seq<VNode>, word: seq<bit>, x: nat)
    requires Sized(code) && Transposed(code) && Shaped(code, c, v) && x < |word| == 2 * code.n && IsCodeword(code, word)
    requires Carry(v, Flipped(word, x))
    ensures forall p :: 0 <= p < code.n ==> SignOf(c[p].subs, v) == if p in Checks(code, x) then 1 else 0
  {
    forall p | 0 <= p < code.n
      ensures SignOf(c[p].subs, v) == if p in Checks(code, x) then 1 else 0
    {
      FlippedSign(code, c, v, word, x, p);
      NeighbourIffCheck(code, p, x);
    }
  }

  lemma CountOdd(c: seq<CNode>, v: seq<VNode>, odd: seq<nat>)
    requires |odd| > 0 && odd[0] < |c|
    requires forall p :: 0 <= p < |c| ==> SignOf(c[p].subs, v) == if p in odd then 1 else 0
    ensures EvenChecks(c, v) != |c| && (|odd| == 1 ==> EvenChecks(c, v) == |c| - 1)
  {
    EvenChecksCounts(c, v);
    assert odd[0] in odd;
    if |odd| == 1 {
      AllButOne(c, v, odd[0]);
    }
  }

  /** How many checks are even while the bit is wrong. */
  lemma WrongCount(phi: real -> real, code: Code, c: seq<CNode>, v: seq<VNode>, word: seq<bit>, llr: seq<real>,
                   x: nat, a: real, b: real)
    requires Case(phi, code, word, llr, x, a, b) && Stands(phi, code, c, v, word, llr, x, true, a, b)
    requires |Checks(code, x)| > 0
    ensures EvenChecks(c, v) != code.n && (|Checks(code, x)| == 1 ==> EvenChecks(c, v) == code.n - 1)
  {
    ChecksDistinct(code, x);
    WrongSigns(code, c, v, word, x);
    CountOdd(c, v, Checks(code, x));
  }

  /** From a state in which nothing is wrong the decoder stops at once, with the word. */
  lemma RightStops(phi: real -> real, code: Code, c: seq<CNode>, v: seq<VNode>, word: seq<bit>, llr: seq<real>,
                   x: nat, a: real, b: real, iter: nat)
    requires Case(phi, code, word, llr, x, a, b) && Stands(phi, code, c, v, word, llr, x, false, a, b)
    requires |Checks(code, x)| > 0 && iter < MAX_ITER
    ensures Decode(phi, c, v, iter) == Outcome(iter + 1, code.n, word)
  {
    CodewordIsEven(code, c, v, word);
    Decides(phi, code, c, v, word, llr, x, false, a, b);
    DecodeStops(phi, c, v, iter);
  }

  /** A bit with a single check keeps saying the same; the decoder goes on to the end with one odd check,
      and decides right all the same. */
  lemma {:induction false} WrongGoesOn(phi: real -> real, code: Code, c: seq<CNode>, v: seq<VNode>, word: seq<bit>,
                                       llr: seq<real>, x: nat, a: real, b: real, iter: nat)
    requires Case(phi, code, word, llr, x, a, b) && Stands(phi, code, c, v, word, llr, x, true, a, b)
    requires |Checks(code, x)| == 1 && llr[x] != 0.0 && iter < MAX_ITER
    ensures Decode(phi, c, v, iter) == Outcome(MAX_ITER, code.n - 1, word)
    decreases MAX_ITER - iter
  {
    var c' := CheckSide(phi, c, v);
    WrongCount(phi, code, c, v, word, llr, x, a, b);
    if iter + 1 == MAX_ITER {
      Decides(phi, code, c, v, word, llr, x, true, a, b);
    } else {
      NextStands(phi, code, c, v, word, llr, x, true, a, b);
      DecodeGoesOn(phi, c, v, iter);
      WrongGoesOn(phi, code, c', VariableSide(phi, v, c'), word, llr, x, a, b, iter + 1);
    }
  }

  lemma MendedInTwo(phi: real -> real, code: Code, word: seq<bit>, llr: seq<real>, x: nat, a: real, b: real)
    requires Case(phi, code, word, llr, x, a, b) && |Checks(code, x)| > 0 && Mends(code, llr, x)
    ensures Decode(phi, CheckNodes(code), VariableNodes(phi, code, llr), 0) == Outcome(2, code.n, word)
  {
    var c, v := CheckNodes(code), VariableNodes(phi, code, llr);
    var c' := CheckSide(phi, c, v);
    StartStands(phi, code, word, llr, x, a, b);
    WrongCount(phi, code, c, v, word, llr, x, a, b);
    NextStands(phi, code, c, v, word, llr, x, true, a, b);
    DecodeGoesOn(phi, c, v, 0);
    RightStops(phi, code, c', VariableSide(phi, v, c'), word, llr, x, a, b, 1);
  }

  /** A bit no check looks at: the flipped word is a codeword too. */
  lemma UncheckedFlips(code: Code, word: seq<bit>, x: nat)
    requires Sized(code) && Transposed(code) && x < |word| == 2 * code.n && IsCodeword(code, word)
    requires |Checks(code, x)| == 0
    ensures IsCodeword(code, Flipped(word, x))
  {
    forall p | 0 <= p < code.n ensures Satisfied(code, Flipped(word, x), p) {
      NeighbourIffCheck(code, p, x);
      NeighboursDistinct(code, p);
      FlippedSum(word, x, Neighbours(code, p));
      assert Satisfied(code, word, p);
    }
  }

  /** What becomes of one bad ratio, for every codeword, place and phi that falls: a bit that takes part
      in two checks or more, or whose ratio is nothing at all, is put right in the second iteration with
      every check even; one in a single check is decided right, but its check stays odd through all
      iterations; and one in none is lost in the first. */
  lemma OneBadOutcome(phi: real -> real, code: Code, word: seq<bit>, llr: seq<real>, x: nat, a: real, b: real)
    requires Case(phi, code, word, llr, x, a, b)
    ensures Decode(phi, CheckNodes(code), VariableNodes(phi, code, llr), 0)
         == if |Checks(code, x)| == 0 then Outcome(1, code.n, Flipped(word, x))
            else if |Checks(code, x)| > 1 || llr[x] == 0.0 then Outcome(2, code.n, word)
            else Outcome(MAX_ITER, code.n - 1, word)
  {
    if |Checks(code, x)| == 0 {
      UncheckedFlips(code, word, x);
      CodewordIffFirstIteration(phi, code, llr);
    } else if Mends(code, llr, x) {
      MendedInTwo(phi, code, word, llr, x, a, b);
    } else {
      StartStands(phi, code, word, llr, x, a, b);
      WrongGoesOn(phi, code, CheckNodes(code), VariableNodes(phi, code, llr), word, llr, x, a, b, 0);
    }
  }
}
