/** lr_lambda_update in run_vqa.py: a learning-rate multiplier keyed on the
    iteration count, with a linear warmup from 0.2 to 1.0 over the first
    1000 iterations and then a step decay by 0.1 per milestone passed. As
    written, the decay looks the iteration up in an empty list, so the
    milestones never take effect; the milestone variant the constants
    describe is modelled beside it. The script itself never installs the
    multiplier: the LambdaLR scheduler that would call it is commented out. */
module LrSchedule {

  const WarmupIterations: int := 1000
  const WarmupFactor: real := 0.2
  const LrRatio: real := 0.1
  const LrSteps: seq<int> := [15000, 18000, 20000, 21000]

  predicate Sorted(xs: seq<int>)
  {
    forall i, j :: 0 <= i < j < |xs| ==> xs[i] <= xs[j]
  }

  /** bisect.bisect (= bisect_right) on a sorted list: the position after
      the last element that is <= x, i.e. how many milestones x has reached
      (landing exactly on a milestone counts as past it). */
  function Bisect(xs: seq<int>, x: int): (r: nat)
    requires Sorted(xs)
    ensures r <= |xs|
    ensures forall j :: 0 <= j < r ==> xs[j] <= x
    ensures forall j :: r <= j < |xs| ==> x < xs[j]
  {
    if |xs| == 0 || x < xs[0] then 0
    else 1 + Bisect(xs[1..], x)
  }

  /** pow(b, n) for a natural exponent. */
  function Pow(b: real, n: nat): real
  {
    if n == 0 then 1.0 else b * Pow(b, n - 1)
  }

  /** The warmup branch: 0.2 * (1 - alpha) + alpha with alpha = i / 1000. */
  function Warmup(i: int): real
  {
    var alpha := (i as real) / (WarmupIterations as real);
    WarmupFactor * (1.0 - alpha) + alpha
  }

  /** lr_lambda_update as written: the decay exponent is bisect([], i). */
  function LrLambdaUpdate(i: int): (r: real)
    ensures i == 0 ==> r == WarmupFactor
    ensures i >= WarmupIterations ==> r == 1.0
    ensures 0 <= i ==> WarmupFactor <= r <= 1.0
  {
    if i <= WarmupIterations then Warmup(i)
    else Pow(LrRatio, Bisect([], i))
  }

  /** Within warmup the multiplier climbs by 0.0008 per iteration. */
  lemma WarmupSlope(i: int, j: int)
    requires i <= WarmupIterations && j <= WarmupIterations
    ensures LrLambdaUpdate(j) - LrLambdaUpdate(i) == 0.0008 * ((j - i) as real)
  {
  }

  /** The multiplier never decreases with the iteration count: warmup rises
      to exactly 1.0 at iteration 1000 and stays there. */
  lemma LrLambdaUpdateMonotone(i: int, j: int)
    requires i <= j
    ensures LrLambdaUpdate(i) <= LrLambdaUpdate(j)
  {
    if j <= WarmupIterations {
      WarmupSlope(i, j);
    }
  }

  /** As written, every milestone is ignored: past warmup the multiplier is
      1.0 at each of them. */
  lemma LrLambdaIgnoresMilestones()
    ensures forall k :: 0 <= k < |LrSteps| ==> LrLambdaUpdate(LrSteps[k]) == 1.0
    ensures LrLambdaUpdate(15000) == 1.0
  {
  }

  lemma {:induction false} PowRatioBounds(n: nat)
    ensures 0.0 < Pow(LrRatio, n) <= 1.0
  {
    if n > 0 {
      PowRatioBounds(n - 1);
    }
  }

  /** More decay steps never give a larger multiplier. */
  lemma {:induction false} PowRatioAntitone(m: nat, n: nat)
    requires m <= n
    ensures Pow(LrRatio, n) <= Pow(LrRatio, m)
    decreases n
  {
    if m < n {
      PowRatioAntitone(m, n - 1);
      PowRatioBounds(n - 1);
    }
  }

  /** A later iteration has reached at least as many milestones. */
  lemma {:induction false} BisectMonotone(xs: seq<int>, x: int, y: int)
    requires Sorted(xs) && x <= y
    ensures Bisect(xs, x) <= Bisect(xs, y)
    decreases |xs|
  {
    if |xs| > 0 && xs[0] <= x {
      BisectMonotone(xs[1..], x, y);
    }
  }

  /** The multiplier with the milestone list in the lookup. */
  function LrLambdaMilestones(i: int): (r: real)
    ensures i == 0 ==> r == WarmupFactor
    ensures i <= WarmupIterations ==> r == LrLambdaUpdate(i)
    ensures WarmupIterations < i ==> 0.0 < r <= 1.0
  {
    if i <= WarmupIterations then Warmup(i)
    else
      PowRatioBounds(Bisect(LrSteps, i));
      Pow(LrRatio, Bisect(LrSteps, i))
  }

  /** With the milestones in place the multiplier is 1.0 up to the first
      milestone, and each milestone reached divides it by ten. */
  lemma LrLambdaMilestoneValues()
    ensures LrLambdaMilestones(1000) == 1.0
    ensures LrLambdaMilestones(1001) == 1.0
    ensures LrLambdaMilestones(14999) == 1.0
    ensures LrLambdaMilestones(15000) == 0.1
    ensures LrLambdaMilestones(18000) == 0.01
    ensures LrLambdaMilestones(19000) == 0.01
    ensures LrLambdaMilestones(21000) == 0.0001
  {
    assert Bisect(LrSteps, 14999) == 0;
    assert Bisect(LrSteps, 15000) == 1;
    assert Bisect(LrSteps, 18000) == 2;
    assert Bisect(LrSteps, 19000) == 2;
    assert Bisect(LrSteps, 21000) == 4;
  }

  /** After warmup the milestone multiplier never increases. */
  lemma LrLambdaMilestonesDecay(i: int, j: int)
    requires WarmupIterations < i <= j
    ensures LrLambdaMilestones(j) <= LrLambdaMilestones(i)
  {
    BisectMonotone(LrSteps, i, j);
    PowRatioAntitone(Bisect(LrSteps, i), Bisect(LrSteps, j));
  }
}
