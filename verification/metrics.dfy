/** The VQA score and its upper bound in run_vqa.py. A row of logits picks
    its top-1 answer; the example scores the target weight of that answer
    (soft, multi-label targets give partial credit). The upper bound of an
    example is its largest target weight. Evaluation sums both over the
    held-out set and divides by the number of examples. */
module Metrics {
  import opened Results

  /** One example: the model's logits and the target weights, both indexed
      by answer candidate. */
  datatype Example = Example(logits: seq<real>, target: seq<real>)

  /** A row of the [batch, candidates] tensors: one logit and one target
      weight per candidate, and at least one candidate. */
  predicate WellShaped(x: Example)
  {
    |x.logits| == |x.target| > 0
  }

  predicate AllWellShaped(batches: seq<seq<Example>>)
  {
    forall b, x :: b in batches && x in b ==> WellShaped(x)
  }

  /** k indexes a maximal entry of xs. */
  predicate IsArgMax(xs: seq<real>, k: int)
  {
    0 <= k < |xs| && forall j :: 0 <= j < |xs| ==> xs[j] <= xs[k]
  }

  /** torch.max(logits, 1)[1] on one row. Which maximal index is returned
      on ties is not relied upon anywhere; this one returns the first. */
  function ArgMax(xs: seq<real>): (k: nat)
    requires |xs| > 0
    ensures IsArgMax(xs, k)
    ensures forall j :: 0 <= j < k ==> xs[j] < xs[k]
  {
    if |xs| == 1 then 0
    else
      var k := ArgMax(xs[..|xs| - 1]);
      if xs[|xs| - 1] > xs[k] then |xs| - 1 else k
  }

  /** target.max(1)[0] on one row. */
  function RowMax(xs: seq<real>): (m: real)
    requires |xs| > 0
    ensures forall j :: 0 <= j < |xs| ==> xs[j] <= m
    ensures exists j :: 0 <= j < |xs| && xs[j] == m
  {
    if |xs| == 1 then xs[0]
    else
      var m := RowMax(xs[..|xs| - 1]);
      if xs[|xs| - 1] > m then xs[|xs| - 1] else m
  }

  function Sum(xs: seq<real>): real
  {
    if |xs| == 0 then 0.0 else Sum(xs[..|xs| - 1]) + xs[|xs| - 1]
  }

  /** A row that is zero everywhere but at k sums to its entry at k. */
  lemma {:induction false} SumSingleNonzero(xs: seq<real>, k: int)
    requires 0 <= k < |xs|
    requires forall j :: 0 <= j < |xs| && j != k ==> xs[j] == 0.0
    ensures Sum(xs) == xs[k]
    decreases |xs|
  {
    var n := |xs| - 1;
    if k == n {
      SumZero(xs[..n]);
    } else {
      SumSingleNonzero(xs[..n], k);
    }
  }

  lemma {:induction false} SumZero(xs: seq<real>)
    requires forall j :: 0 <= j < |xs| ==> xs[j] == 0.0
    ensures Sum(xs) == 0.0
  {
    if |xs| > 0 {
      SumZero(xs[..|xs| - 1]);
    }
  }

  /** The one-hot encoding of candidate k among n candidates. */
  function OneHot(k: nat, n: nat): seq<real>
  {
    seq(n, j => if j == k then 1.0 else 0.0)
  }

  /** r is zero everywhere except at candidate k, where it holds the target
      weight of k. */
  predicate HitsOnly(r: seq<real>, target: seq<real>, k: int)
  {
    && |r| == |target|
    && 0 <= k < |target|
    && forall j :: 0 <= j < |r| ==> r[j] == (if j == k then target[k] else 0.0)
  }

  /** compute_score_with_logits on one row: the one-hot of the argmax
      multiplied componentwise by the target weights. The row is zero except
      at a maximal logit, where it carries that candidate's target weight. */
  function ScoreRow(x: Example): (r: seq<real>)
    requires WellShaped(x)
    ensures |r| == |x.target|
    ensures exists k :: IsArgMax(x.logits, k) && HitsOnly(r, x.target, k)
  {
    var k := ArgMax(x.logits);
    var hot := OneHot(k, |x.target|);
    var r := seq(|x.target|, j requires 0 <= j < |x.target| => hot[j] * x.target[j]);
    assert HitsOnly(r, x.target, k);
    r
  }

  /** The score of one example: its score row summed. It is the target
      weight of a top-1 candidate, and so never more than the example's
      largest target weight. */
  function ExampleScore(x: Example): (r: real)
    requires WellShaped(x)
    ensures exists k :: IsArgMax(x.logits, k) && r == x.target[k]
    ensures r <= RowMax(x.target)
  {
    var row := ScoreRow(x);
    var k :| IsArgMax(x.logits, k) && HitsOnly(row, x.target, k);
    SumSingleNonzero(row, k);
    Sum(row)
  }

  /** The example used to illustrate the metric: the top logit sits on the
      single positive label. */
  lemma ExampleScoreHit()
    ensures ExampleScore(Example([0.1, 0.9, 0.2], [0.0, 1.0, 0.0])) == 1.0
  {
    var x := Example([0.1, 0.9, 0.2], [0.0, 1.0, 0.0]);
    var score := ExampleScore(x);
    var k :| IsArgMax(x.logits, k) && score == x.target[k];
  }

  /** ... and the top logit misses it. */
  lemma ExampleScoreMiss()
    ensures ExampleScore(Example([0.9, 0.1, 0.2], [0.0, 1.0, 0.0])) == 0.0
  {
    var x := Example([0.9, 0.1, 0.2], [0.0, 1.0, 0.0]);
    var score := ExampleScore(x);
    var k :| IsArgMax(x.logits, k) && score == x.target[k];
  }

  /** target.max(1)[0]: the row maxima of a batch's targets. */
  function RowMaxes(batch: seq<Example>): (v: seq<real>)
    requires forall x :: x in batch ==> WellShaped(x)
    ensures |v| == |batch|
  {
    seq(|batch|, i requires 0 <= i < |batch| => assert batch[i] in batch && WellShaped(batch[i]); RowMax(batch[i].target))
  }

  /** target.max(1)[0].sum() over one batch, accumulated example by
      example. */
  function BatchBound(batch: seq<Example>): real
    requires forall x :: x in batch ==> WellShaped(x)
  {
    if |batch| == 0 then 0.0
    else
      var last := batch[|batch| - 1];
      assert last in batch && WellShaped(last);
      BatchBound(batch[..|batch| - 1]) + RowMax(last.target)
  }

  /** Accumulating the row maxima one example at a time gives the sum of
      the vector of row maxima. */
  lemma {:induction false} BatchBoundIsRowMaxSum(batch: seq<Example>)
    requires forall x :: x in batch ==> WellShaped(x)
    ensures BatchBound(batch) == Sum(RowMaxes(batch))
  {
    if |batch| > 0 {
      var n := |batch| - 1;
      assert RowMaxes(batch)[..n] == RowMaxes(batch[..n]);
      BatchBoundIsRowMaxSum(batch[..n]);
    }
  }

  /** compute_score_with_logits(pred, target).sum() over one batch. Every
      example scores at most its row maximum, so a batch's score never
      exceeds its upper bound. */
  function BatchScore(batch: seq<Example>): (r: real)
    requires forall x :: x in batch ==> WellShaped(x)
    ensures r <= BatchBound(batch)
  {
    if |batch| == 0 then 0.0
    else BatchScore(batch[..|batch| - 1]) + ExampleScore(batch[|batch| - 1])
  }

  function TotalScore(batches: seq<seq<Example>>): real
    requires AllWellShaped(batches)
  {
    if |batches| == 0 then 0.0
    else TotalScore(batches[..|batches| - 1]) + BatchScore(batches[|batches| - 1])
  }

  function TotalBound(batches: seq<seq<Example>>): real
    requires AllWellShaped(batches)
  {
    if |batches| == 0 then 0.0
    else TotalBound(batches[..|batches| - 1]) + BatchBound(batches[|batches| - 1])
  }

  /** The number of examples the loader yields: len(dataloader.dataset). */
  function NumExamples(batches: seq<seq<Example>>): nat
  {
    if |batches| == 0 then 0
    else NumExamples(batches[..|batches| - 1]) + |batches[|batches| - 1]|
  }

  /** The summed score never exceeds the summed upper bound. */
  lemma {:induction false} TotalScoreLeBound(batches: seq<seq<Example>>)
    requires AllWellShaped(batches)
    ensures TotalScore(batches) <= TotalBound(batches)
  {
    if |batches| > 0 {
      TotalScoreLeBound(batches[..|batches| - 1]);
    }
  }

  /** Evaluation over an empty held-out set divides by zero. */
  datatype EvalError = EmptyDataset

  datatype EvalSummary = EvalSummary(score: real, upperBound: real)

  /** evaluate(): accumulate the batch scores and upper bounds, then divide
      both by the number of examples. The mean score never exceeds the mean
      upper bound. */
  method Evaluate(batches: seq<seq<Example>>) returns (r: Result<EvalSummary, EvalError>)
    requires AllWellShaped(batches)
    ensures r.Failure? <==> NumExamples(batches) == 0
    ensures r.Success? ==>
      && r.value.score == Mean(TotalScore(batches), NumExamples(batches))
      && r.value.upperBound == Mean(TotalBound(batches), NumExamples(batches))
      && r.value.score <= r.value.upperBound
  {
    var score := 0.0;
    var upperBound := 0.0;
    var numData := 0;
    var i := 0;
    while i < |batches|
      invariant 0 <= i <= |batches|
      invariant AllWellShaped(batches[..i])
      invariant score == TotalScore(batches[..i])
      invariant upperBound == TotalBound(batches[..i])
      invariant numData == NumExamples(batches[..i])
    {
      PrefixStep(batches, i);
      score := score + BatchScore(batches[i]);
      upperBound := upperBound + BatchBound(batches[i]);
      numData := numData + |batches[i]|;
      i := i + 1;
    }
    assert batches[..|batches|] == batches;
    assert score == TotalScore(batches) && upperBound == TotalBound(batches);
    if numData == 0 {
      return Failure(EmptyDataset);
    }
    TotalScoreLeBound(batches);
    MeanMonotone(score, upperBound, numData);
    r := Success(EvalSummary(Mean(score, numData), Mean(upperBound, numData)));
  }

  /** Extending a prefix of the batches by one batch adds that batch's
      score, bound and size to the running totals. */
  lemma PrefixStep(batches: seq<seq<Example>>, i: nat)
    requires AllWellShaped(batches) && i < |batches|
    ensures AllWellShaped(batches[..i]) && AllWellShaped(batches[..i + 1])
    ensures TotalScore(batches[..i + 1]) == TotalScore(batches[..i]) + BatchScore(batches[i])
    ensures TotalBound(batches[..i + 1]) == TotalBound(batches[..i]) + BatchBound(batches[i])
    ensures NumExamples(batches[..i + 1]) == NumExamples(batches[..i]) + |batches[i]|
  {
    assert batches[..i + 1][..i] == batches[..i];
  }

  /** A sum divided by a positive count. */
  function Mean(total: real, n: nat): real
    requires n > 0
  {
    total / (n as real)
  }

  lemma MeanMonotone(a: real, b: real, n: nat)
    requires a <= b && n > 0
    ensures Mean(a, n) <= Mean(b, n)
  {
  }

  /** The training score of an epoch as a percentage: 100 * summed score
      over the number of training examples. Like the evaluation score, it
      never exceeds the mean upper bound, here as a percentage. */
  function TrainScorePercent(batches: seq<seq<Example>>): (r: Result<real, EvalError>)
    requires AllWellShaped(batches)
    ensures r.Failure? <==> NumExamples(batches) == 0
    ensures r.Success? ==> r.value == 100.0 * Mean(TotalScore(batches), NumExamples(batches))
    ensures r.Success? ==> r.value <= 100.0 * Mean(TotalBound(batches), NumExamples(batches))
  {
    if NumExamples(batches) == 0 then Failure(EmptyDataset)
    else
      var n := NumExamples(batches);
      TotalScoreLeBound(batches);
      MeanMonotone(TotalScore(batches), TotalBound(batches), n);
      Success(100.0 * Mean(TotalScore(batches), n))
  }
}
