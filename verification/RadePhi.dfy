/** phi0, the table approximation of log((e^x + 1) / (e^x - 1)) that the sum-product decoder
    works with, over the reals. */
module RadePhi {

  /** SI16: to 16.16 fixed point, rounding towards zero. */
  function Si16(x: real): int {
    if x >= 0.0 then (x * 65536.0).Floor else -((-x * 65536.0).Floor)
  }

  function HighTable(i: int): real {
    match i
    case 0 => 0.000116589
    case 1 => 0.000192223
    case 2 => 0.000316923
    case 3 => 0.000522517
    case 4 => 0.000861485
    case 5 => 0.001420349
    case 6 => 0.002341760
    case 7 => 0.003860913
    case 8 => 0.006365583
    case 9 => 0.010495133
    case _ => 0.010495133
  }

  function MidTable(i: int): real {
    match i
    case 0 => 0.013903889
    case 1 => 0.014800644
    case 2 => 0.015755242
    case 3 => 0.016771414
    case 4 => 0.017853133
    case 5 => 0.019004629
    case 6 => 0.020230403
    case 7 => 0.021535250
    case 8 => 0.022924272
    case 9 => 0.024402903
    case 10 => 0.025976926
    case 11 => 0.027652501
    case 12 => 0.029436184
    case 13 => 0.031334956
    case 14 => 0.033356250
    case 15 => 0.035507982
    case 16 => 0.037798579
    case 17 => 0.040237016
    case 18 => 0.042832850
    case 19 => 0.045596260
    case 20 => 0.048538086
    case 21 => 0.051669874
    case 22 => 0.055003924
    case 23 => 0.058553339
    case 24 => 0.062332076
    case 25 => 0.066355011
    case 26 => 0.070637993
    case 27 => 0.075197917
    case 28 => 0.080052790
    case 29 => 0.085221814
    case 30 => 0.090725463
    case 31 => 0.096585578
    case 32 => 0.102825462
    case 33 => 0.109469985
    case 34 => 0.116545700
    case 35 => 0.124080967
    case 36 => 0.132106091
    case 37 => 0.140653466
    case 38 => 0.149757747
    case 39 => 0.159456024
    case 40 => 0.169788027
    case 41 => 0.180796343
    case 42 => 0.192526667
    case 43 => 0.205028078
    case 44 => 0.218353351
    case 45 => 0.232559308
    case 46 => 0.247707218
    case 47 => 0.263863255
    case 48 => 0.281099022
    case 49 => 0.299492155
    case 50 => 0.319127030
    case 51 => 0.340095582
    case 52 => 0.362498271
    case 53 => 0.386445235
    case 54 => 0.412057648
    case 55 => 0.439469363
    case 56 => 0.468828902
    case 57 => 0.500301872
    case 58 => 0.534073947
    case 59 => 0.570354566
    case 60 => 0.609381573
    case 61 => 0.651427083
    case 62 => 0.696805010
    case 63 => 0.745880827
    case _ => 0.745880827
  }

  function LowTree(k: int): real {
    if k > Si16(0.007812) then
        if k > Si16(0.088388) then
            if k > Si16(0.250000) then
                if k > Si16(0.500000) then
                    if k > Si16(0.707107) then 0.922449644 else 1.241248638
                else
                    if k > Si16(0.353553) then 1.573515241 else 1.912825912
            else
                if k > Si16(0.125000) then
                    if k > Si16(0.176777) then 2.255740095 else 2.600476919
                else
                    2.946130351
        else
            if k > Si16(0.022097) then
                if k > Si16(0.044194) then
                    if k > Si16(0.062500) then 3.292243417 else 3.638586634
                else
                    if k > Si16(0.031250) then 3.985045009 else 4.331560985
            else
                if k > Si16(0.011049) then
                    if k > Si16(0.015625) then 4.678105767 else 5.024664952
                else
                    5.371231340
    else
        if k > Si16(0.000691) then
            if k > Si16(0.001953) then
                if k > Si16(0.003906) then
                    if k > Si16(0.005524) then 5.717801329 else 6.064373119
                else
                    if k > Si16(0.002762) then 6.410945809 else 6.757518949
            else
                if k > Si16(0.000977) then
                    if k > Si16(0.001381) then 7.104092314 else 7.450665792
                else
                    7.797239326
        else
            if k > Si16(0.000173) then
                if k > Si16(0.000345) then
                    if k > Si16(0.000488) then 8.143812888 else 8.490386464
                else
                    if k > Si16(0.000244) then 8.836960047 else 9.183533634
            else
                if k > Si16(0.000086) then
                    if k > Si16(0.000122) then 9.530107222 else 9.876680812
                else
                    10.000000000
  }

  /** phi0 on the fixed-point argument. */
  function PhiFix(k: int): real {
    if k >= Si16(10.0) then 0.0
    else if k >= Si16(5.0) then HighTable(19 - k / 32768)
    else if k >= Si16(1.0) then MidTable(79 - k / 4096)
    else LowTree(k)
  }

  function Phi0(x: real): real { PhiFix(Si16(x)) }

  lemma HighTableRises(i: int)
    requires 0 <= i < 9
    ensures 0.0 <= HighTable(i) <= HighTable(i + 1)
  {
  }

  lemma MidTableRises(i: int)
    requires 0 <= i < 63
    ensures MidTable(i) <= MidTable(i + 1)
  {
  }

  lemma {:induction false} HighTableSorted(i: int, j: int)
    requires 0 <= i <= j < 10
    ensures HighTable(i) <= HighTable(j)
    decreases j - i
  {
    if i < j {
      HighTableRises(i);
      HighTableSorted(i + 1, j);
    }
  }

  lemma {:induction false} MidTableSorted(i: int, j: int)
    requires 0 <= i <= j < 64
    ensures MidTable(i) <= MidTable(j)
    decreases j - i
  {
    if i < j {
      MidTableRises(i);
      MidTableSorted(i + 1, j);
    }
  }

  lemma LowTreeBounds(k: int)
    ensures 0.922449644 <= LowTree(k) <= 10.0
  {
  }

  lemma LowTreeFalls(j: int, k: int)
    requires j <= k
    ensures LowTree(j) >= LowTree(k)
  {
  }

  lemma Si16Monotone(x: real, y: real)
    requires x <= y
    ensures Si16(x) <= Si16(y)
  {
  }

  /** Between which bounds the values lie in each range of the argument. */
  lemma PhiFixRange(k: int)
    ensures k >= Si16(10.0) ==> PhiFix(k) == 0.0
    ensures Si16(5.0) <= k < Si16(10.0) ==> 0.0 <= PhiFix(k) <= 0.010495133
    ensures Si16(1.0) <= k < Si16(5.0) ==> 0.013903889 <= PhiFix(k) <= 0.745880827
    ensures k < Si16(1.0) ==> 0.922449644 <= PhiFix(k) <= 10.0
  {
    if Si16(5.0) <= k < Si16(10.0) {
      HighTableSorted(0, 19 - k / 32768);
      HighTableSorted(19 - k / 32768, 9);
    } else if Si16(1.0) <= k < Si16(5.0) {
      MidTableSorted(0, 79 - k / 4096);
      MidTableSorted(79 - k / 4096, 63);
    } else if k < Si16(1.0) {
      LowTreeBounds(k);
    }
  }

  lemma PhiFixFallsHigh(j: int, k: int)
    requires Si16(5.0) <= j <= k < Si16(10.0)
    ensures PhiFix(k) <= PhiFix(j)
  {
    HighTableSorted(19 - k / 32768, 19 - j / 32768);
  }

  lemma PhiFixFallsMid(j: int, k: int)
    requires Si16(1.0) <= j <= k < Si16(5.0)
    ensures PhiFix(k) <= PhiFix(j)
  {
    MidTableSorted(79 - k / 4096, 79 - j / 4096);
  }

  lemma PhiFixFalls(j: int, k: int)
    requires j <= k
    ensures 0.0 <= PhiFix(k) <= PhiFix(j) <= 10.0
  {
    PhiFixRange(j);
    PhiFixRange(k);
    if Si16(5.0) <= j && k < Si16(10.0) {
      PhiFixFallsHigh(j, k);
    } else if Si16(1.0) <= j && k < Si16(5.0) {
      PhiFixFallsMid(j, k);
    } else if k < Si16(1.0) {
      LowTreeFalls(j, k);
    }
  }

  /** phi0 falls as its argument grows and stays within [0, 10], on every argument. */
  lemma PhiAntitone(x: real, y: real)
    requires x <= y
    ensures 0.0 <= Phi0(y) <= Phi0(x) <= 10.0
  {
    Si16Monotone(x, y);
    PhiFixFalls(Si16(x), Si16(y));
  }

  // ---------------------------------------------------------------- its own inverse

  /** Arguments from k / 65536 up to the next come back within the bound. */
  predicate ComesBack(k: int, bound: real) {
    var back := PhiFix(Si16(PhiFix(k)));
    1.0 / 65536.0 - bound < back - (k as real) / 65536.0 < bound
  }

  lemma LowComesBack(k: int)
    requires 0 <= k < Si16(1.0)
    ensures ComesBack(k, 0.25)
  {
  }

  lemma MidComesBack(k: int)
    requires Si16(1.0) <= k < Si16(2.0)
    ensures ComesBack(k, 0.25)
  {
  }

  lemma NextMidComesBack(k: int)
    requires Si16(2.0) <= k < Si16(3.0)
    ensures ComesBack(k, 0.25)
  {
  }

  lemma UpperMidComesBack(k: int)
    requires Si16(3.0) <= k < Si16(5.0)
    ensures ComesBack(k, 0.25)
  {
  }

  lemma HighComesBack(k: int)
    requires Si16(5.0) <= k < Si16(10.0)
    ensures ComesBack(k, 0.5)
  {
  }

  /** log((e^x + 1) / (e^x - 1)) is its own inverse.  The table is too, up to a quarter below 5 and up to a
      half below 10, where it ends. */
  lemma PhiIsItsOwnInverse(x: real)
    ensures var back := Phi0(Phi0(x));
            && (0.0 <= x < 5.0 ==> -0.25 < back - x < 0.25)
            && (5.0 <= x < 10.0 ==> -0.5 < back - x < 0.5)
            && (x >= 10.0 ==> back == 10.0) && (x < 0.0 ==> back == 0.0)
  {
    var k := Si16(x);
    if x < 0.0 || x >= 10.0 {
      assert Si16(0.0) == 0 && Si16(10.0) == 655360;
    } else {
      assert (k as real) / 65536.0 <= x < ((k + 1) as real) / 65536.0;
      if k < Si16(1.0) {
        LowComesBack(k);
      } else if k < Si16(2.0) {
        MidComesBack(k);
      } else if k < Si16(3.0) {
        NextMidComesBack(k);
      } else if k < Si16(5.0) {
        UpperMidComesBack(k);
      } else {
        HighComesBack(k);
      }
    }
  }

  // ---------------------------------------------------------------- how fast it falls

  lemma MidStep(i: int)
    requires 0 <= i < 63
    ensures 1.0644 * MidTable(i) <= MidTable(i + 1) <= 1.0705 * MidTable(i)
  {
  }

  lemma HighStep(i: int)
    requires 0 <= i < 9
    ensures 1.6487 * HighTable(i) <= HighTable(i + 1) <= 1.6488 * HighTable(i)
  {
  }

  lemma LowStep(k: int)
    requires 64 < k < 32768 && k != 512
    ensures 0.6 <= LowTree(k) - LowTree(2 * k) <= 0.7
  {
  }

  /** phi falls like 2 e^-x.  In the two tables by e^(1/16) a sixteenth and e^(1/2) a half; in the tree,
      where it is near the logarithm of 2 / x, by log 2 when the argument is doubled. */
  lemma TableSteps(i: int, k: int)
    ensures 0 <= i < 63 ==> 1.0644 * MidTable(i) <= MidTable(i + 1) <= 1.0705 * MidTable(i)
    ensures 0 <= i < 9 ==> 1.6487 * HighTable(i) <= HighTable(i + 1) <= 1.6488 * HighTable(i)
    ensures 64 < k < 32768 && k != 512 ==> 0.6 <= LowTree(k) - LowTree(2 * k) <= 0.7
  {
    if 0 <= i < 63 {
      MidStep(i);
    }
    if 0 <= i < 9 {
      HighStep(i);
    }
    if 64 < k < 32768 && k != 512 {
      LowStep(k);
    }
  }
}
