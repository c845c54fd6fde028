/** The gradient-accumulation state machine of the training loop in
    run_vqa.py: the start-up check of the accumulation factor, the split of
    the batch size into micro-batches, the per-epoch zeroing of gradients,
    the loss scaling, the "fire" decision that triggers an optimizer step,
    and the iteration ids used for logging.

    The optimizer step, the gradient clipping and the backward pass are
    opaque; a micro-batch only reports whether it fired and which loss it
    handed to backward. */
module Accumulation {
  import opened Results

  /** The start-up errors the script raises before any training happens. */
  datatype ConfigError =
    | InvalidAccumulationSteps(steps: int)
    | TrainingNotRequested

  /** The part of the run configuration the loop reads after start-up:
      the per-micro-batch loader size and the accumulation factor K. */
  datatype TrainConfig = TrainConfig(microBatchSize: int, accumulationSteps: nat)

  /** Start-up checks in the order the script performs them: the factor
      must be at least 1, the batch size is then floor-divided by it, and
      only then is the do_train flag checked. */
  function CheckConfig(trainBatchSize: int, accumulationSteps: int, doTrain: bool)
    : (r: Result<TrainConfig, ConfigError>)
    ensures accumulationSteps < 1 <==> r == Failure(InvalidAccumulationSteps(accumulationSteps))
    ensures r == Failure(TrainingNotRequested) <==> accumulationSteps >= 1 && !doTrain
    ensures r.Success? <==> accumulationSteps >= 1 && doTrain
    ensures r.Success? ==>
      && r.value.accumulationSteps == accumulationSteps
      && r.value.microBatchSize * accumulationSteps <= trainBatchSize
      && trainBatchSize < (r.value.microBatchSize + 1) * accumulationSteps
  {
    if accumulationSteps < 1 then
      Failure(InvalidAccumulationSteps(accumulationSteps))
    else
      // Python's `//` floors; for a positive divisor so does Dafny's `/`.
      var micro := trainBatchSize / accumulationSteps;
      FloorDivBounds(trainBatchSize, accumulationSteps);
      if !doTrain then Failure(TrainingNotRequested)
      else Success(TrainConfig(micro, accumulationSteps))
  }

  /** Floor division brackets the dividend between two consecutive multiples. */
  lemma FloorDivBounds(n: int, k: int)
    requires k >= 1
    ensures (n / k) * k <= n < (n / k + 1) * k
  {
    assert n == k * (n / k) + n % k;
  }

  /** Division and remainder are determined by the defining equation. */
  lemma DivModUnique(n: int, k: int, q: int, r: int)
    requires k >= 1 && 0 <= r < k && n == q * k + r
    ensures q == n / k && r == n % k
  {
    var q', r' := n / k, n % k;
    assert n == q' * k + r';
    if q > q' {
      assert (q - q') * k == q * k - q' * k;
      MulMonotone(q - q', k);
    } else if q < q' {
      assert (q' - q) * k == q' * k - q * k;
      MulMonotone(q' - q, k);
    }
  }

  lemma MulMonotone(a: int, k: int)
    requires a >= 1 && k >= 1
    ensures a * k >= k
  {
    assert a * k == (a - 1) * k + k;
    assert (a - 1) * k >= 0;
  }

  /** Moving from micro-batch n to n + 1 either completes a window of K
      (the remainder wraps to 0 and the quotient grows by one) or extends
      the current window. */
  lemma DivModSucc(n: nat, k: nat)
    requires k >= 1
    ensures (n + 1) % k == 0 <==> n % k == k - 1
    ensures n % k == k - 1 ==> (n + 1) / k == n / k + 1 && (n + 1) % k == 0
    ensures n % k != k - 1 ==> (n + 1) / k == n / k && (n + 1) % k == n % k + 1
  {
    var q, r := n / k, n % k;
    assert n == q * k + r;
    if r == k - 1 {
      assert n + 1 == (q + 1) * k + 0;
      DivModUnique(n + 1, k, q + 1, 0);
    } else {
      assert n + 1 == q * k + (r + 1);
      DivModUnique(n + 1, k, q, r + 1);
    }
  }

  /** The loop's counters: optimizer steps taken in the run so far, and
      micro-batches whose gradients are summed but not yet applied. */
  datatype StepState = StepState(globalStep: nat, pendingMicro: nat)

  /** global_step = 0 before the first epoch. */
  const Initial: StepState := StepState(0, 0)

  /** optimizer.zero_grad() at the start of every epoch: gradients left over
      from a trailing partial window of the previous epoch are discarded,
      the optimizer-step count is kept. */
  function StartEpoch(s: StepState): (t: StepState)
    ensures t.globalStep == s.globalStep
    ensures t.pendingMicro == 0
  {
    s.(pendingMicro := 0)
  }

  /** The loss handed to backward: divided by K only when K > 1. */
  function ScaleLoss(loss: real, k: nat): (r: real)
    requires k >= 1
    ensures r * (k as real) == loss
    ensures k == 1 ==> r == loss
  {
    if k == 1 then loss else loss / (k as real)
  }

  /** The optimizer steps after micro-batch `step` of an epoch:
      (step + 1) % K == 0. */
  predicate Fires(k: nat, step: nat)
    requires k >= 1
  {
    (step + 1) % k == 0
  }

  /** What one micro-batch does to the loop state. */
  datatype MicroResult = MicroResult(next: StepState, fired: bool, backwardLoss: real)

  /** One micro-batch with in-epoch index `step` and raw loss `loss`: scale
      the loss, run backward, and fire an optimizer step (clip, step, zero
      the gradients, advance global_step) when (step + 1) % K == 0. */
  function MicroStep(k: nat, s: StepState, step: nat, loss: real): (m: MicroResult)
    requires k >= 1
    ensures m.fired == Fires(k, step)
    ensures m.backwardLoss * (k as real) == loss
    ensures m.fired ==> m.next.globalStep == s.globalStep + 1 && m.next.pendingMicro == 0
    ensures !m.fired ==> m.next.globalStep == s.globalStep && m.next.pendingMicro == s.pendingMicro + 1
  {
    var scaled := ScaleLoss(loss, k);
    if Fires(k, step) then MicroResult(StepState(s.globalStep + 1, 0), true, scaled)
    else MicroResult(StepState(s.globalStep, s.pendingMicro + 1), false, scaled)
  }

  /** Within an epoch that started at global step g0, micro-batch `step`
      begins with `step % K` pending micro-batches and `g0 + step / K`
      optimizer steps; one MicroStep keeps that relation for `step + 1`,
      so the pending count never reaches K. */
  lemma MicroStepKeepsWindow(k: nat, g0: nat, s: StepState, step: nat, loss: real)
    requires k >= 1
    requires s.globalStep == g0 + step / k && s.pendingMicro == step % k
    ensures MicroStep(k, s, step, loss).next.globalStep == g0 + (step + 1) / k
    ensures MicroStep(k, s, step, loss).next.pendingMicro == (step + 1) % k
    ensures MicroStep(k, s, step, loss).next.pendingMicro < k
  {
    DivModSucc(step, k);
  }

  /** The iteration id logged for micro-batch `step` of epoch `epochId` over
      a loader of `loaderLen` micro-batches. */
  /** Offset `offset` from the start id decodes, by quotient and remainder
      over the loader length, to epoch `epochId` and step `step`. */
  predicate DecodesTo(offset: int, loaderLen: nat, epochId: nat, step: nat)
    requires loaderLen > 0
  {
    offset / loaderLen == epochId && offset % loaderLen == step
  }

  function IterId(startIterId: int, step: nat, epochId: nat, loaderLen: nat): int
  {
    startIterId + step + epochId * loaderLen
  }

  /** An in-range id decodes back to its epoch and step: quotient and
      remainder of its offset from the start id by the loader length. */
  lemma IterIdDecodes(startIterId: int, step: nat, epochId: nat, loaderLen: nat)
    requires step < loaderLen
    ensures DecodesTo(IterId(startIterId, step, epochId, loaderLen) - startIterId, loaderLen, epochId, step)
  {
    DivModUnique(step + epochId * loaderLen, loaderLen, epochId, step);
  }

  /** Iteration ids grow strictly in (epoch, step) lexicographic order. */
  lemma IterIdLexMonotone(startIterId: int, loaderLen: nat, e1: nat, s1: nat, e2: nat, s2: nat)
    requires s1 < loaderLen && s2 < loaderLen
    requires e1 < e2 || (e1 == e2 && s1 < s2)
    ensures IterId(startIterId, s1, e1, loaderLen) < IterId(startIterId, s2, e2, loaderLen)
  {
    if e1 < e2 {
      MulMonotone(e2 - e1, loaderLen);
      assert e2 * loaderLen - e1 * loaderLen == (e2 - e1) * loaderLen;
    }
  }

  /** Hence no two micro-batches of a run share an iteration id. */
  lemma IterIdInjective(startIterId: int, loaderLen: nat, e1: nat, s1: nat, e2: nat, s2: nat)
    requires s1 < loaderLen && s2 < loaderLen
    requires IterId(startIterId, s1, e1, loaderLen) == IterId(startIterId, s2, e2, loaderLen)
    ensures e1 == e2 && s1 == s2
  {
    if e1 < e2 || (e1 == e2 && s1 < s2) {
      IterIdLexMonotone(startIterId, loaderLen, e1, s1, e2, s2);
    } else if e2 < e1 || (e1 == e2 && s2 < s1) {
      IterIdLexMonotone(startIterId, loaderLen, e2, s2, e1, s1);
    }
  }

  /** The observable trace of one micro-batch. */
  datatype MicroEvent = MicroEvent(iterId: int, backwardLoss: real, fired: bool)

  /** Number of optimizer steps in a trace. */
  function CountFired(events: seq<MicroEvent>): nat
  {
    if |events| == 0 then 0
    else CountFired(events[..|events| - 1]) + (if events[|events| - 1].fired then 1 else 0)
  }

  lemma {:induction false} CountFiredAppend(a: seq<MicroEvent>, b: seq<MicroEvent>)
    ensures CountFired(a + b) == CountFired(a) + CountFired(b)
    decreases |b|
  {
    if |b| == 0 {
      assert a + b == a;
    } else {
      var b' := b[..|b| - 1];
      assert (a + b)[..|a + b| - 1] == a + b';
      CountFiredAppend(a, b');
    }
  }

  /** One epoch over a loader whose micro-batches produce the raw losses
      `losses`: zero the gradients, then run MicroStep on each micro-batch.
      The optimizer fires on exactly the micro-batches with
      (step + 1) % K == 0, |losses| / K times in all, and |losses| % K
      micro-batches are left pending when the epoch ends. */
  method TrainEpoch(k: nat, s0: StepState, epochId: nat, startIterId: int, losses: seq<real>)
    returns (s: StepState, events: seq<MicroEvent>)
    requires k >= 1
    ensures s.globalStep == s0.globalStep + |losses| / k
    ensures s.pendingMicro == |losses| % k && s.pendingMicro < k
    ensures |events| == |losses|
    ensures CountFired(events) == |losses| / k
    ensures forall i :: 0 <= i < |events| ==> events[i].fired == Fires(k, i)
    ensures forall i :: 0 <= i < |events| ==> events[i].backwardLoss == ScaleLoss(losses[i], k)
    ensures forall i :: 0 <= i < |events| ==>
      events[i].iterId == IterId(startIterId, i, epochId, |losses|)
  {
    s := StartEpoch(s0);
    events := [];
    var step := 0;
    while step < |losses|
      invariant 0 <= step <= |losses|
      invariant s.globalStep == s0.globalStep + step / k
      invariant s.pendingMicro == step % k
      invariant |events| == step
      invariant CountFired(events) == step / k
      invariant forall i :: 0 <= i < step ==> events[i].fired == Fires(k, i)
      invariant forall i :: 0 <= i < step ==> events[i].backwardLoss == ScaleLoss(losses[i], k)
      invariant forall i :: 0 <= i < step ==>
        events[i].iterId == IterId(startIterId, i, epochId, |losses|)
    {
      var m := MicroStep(k, s, step, losses[step]);
      MicroStepKeepsWindow(k, s0.globalStep, s, step, losses[step]);
      DivModSucc(step, k);
      var ev := MicroEvent(IterId(startIterId, step, epochId, |losses|), m.backwardLoss, m.fired);
      CountFiredAppend(events, [ev]);
      assert CountFired([ev]) == (if ev.fired then 1 else 0) by {
        assert [ev][..0] == [];
      }
      events := events + [ev];
      s := m.next;
      step := step + 1;
    }
  }

  lemma MulSucc(a: nat, b: nat)
    ensures a * b + b == (a + 1) * b
  {
  }

  /** Appending the trace of epoch `epochId` to the traces of the epochs
      before it keeps iteration ids equal to positions in the run. */
  lemma AppendEpochIds(startIterId: int, loaderLen: nat, epochId: nat,
                       trace: seq<MicroEvent>, events: seq<MicroEvent>)
    requires |trace| == epochId * loaderLen && |events| == loaderLen
    requires forall j :: 0 <= j < |trace| ==> trace[j].iterId == startIterId + j
    requires forall i :: 0 <= i < |events| ==>
      events[i].iterId == IterId(startIterId, i, epochId, loaderLen)
    ensures |trace + events| == (epochId + 1) * loaderLen
    ensures forall j :: 0 <= j < |trace + events| ==> (trace + events)[j].iterId == startIterId + j
  {
    MulSucc(epochId, loaderLen);
    forall j | 0 <= j < |trace + events|
      ensures (trace + events)[j].iterId == startIterId + j
    {
      if j >= |trace| {
        assert (trace + events)[j] == events[j - |trace|];
      }
    }
  }

  /** The whole run: global_step starts at 0 and every epoch runs over a
      loader of the same length `loaderLen`. After E epochs the optimizer
      has fired E * (loaderLen / K) times, and the iteration ids of the
      run's micro-batches are startIterId, startIterId + 1, ... in order. */
  method Train(k: nat, startIterId: int, loaderLen: nat, losses: seq<seq<real>>)
    returns (s: StepState, trace: seq<MicroEvent>)
    requires k >= 1
    requires forall e :: 0 <= e < |losses| ==> |losses[e]| == loaderLen
    ensures s.globalStep == |losses| * (loaderLen / k)
    ensures s.pendingMicro == (if |losses| == 0 then 0 else loaderLen % k)
    ensures s.pendingMicro < k
    ensures |trace| == |losses| * loaderLen
    ensures CountFired(trace) == s.globalStep
    ensures forall j :: 0 <= j < |trace| ==> trace[j].iterId == startIterId + j
  {
    s := Initial;
    trace := [];
    var epochId := 0;
    while epochId < |losses|
      invariant 0 <= epochId <= |losses|
      invariant s.globalStep == epochId * (loaderLen / k)
      invariant s.pendingMicro == (if epochId == 0 then 0 else loaderLen % k)
      invariant |trace| == epochId * loaderLen
      invariant CountFired(trace) == s.globalStep
      invariant forall j :: 0 <= j < |trace| ==> trace[j].iterId == startIterId + j
    {
      var s', events := TrainEpoch(k, s, epochId, startIterId, losses[epochId]);
      CountFiredAppend(trace, events);
      AppendEpochIds(startIterId, loaderLen, epochId, trace, events);
      MulSucc(epochId, loaderLen / k);
      trace := trace + events;
      s := s';
      epochId := epochId + 1;
    }
  }

  /** Start-up checks followed by the run: a configuration error stops the
      script before any training; otherwise the loop runs with the checked
      accumulation factor. */
  method CheckedTrain(trainBatchSize: int, accumulationSteps: int, doTrain: bool, startIterId: int,
                      loaderLen: nat, losses: seq<seq<real>>)
    returns (r: Result<(StepState, seq<MicroEvent>), ConfigError>)
    requires forall e :: 0 <= e < |losses| ==> |losses[e]| == loaderLen
    ensures r.Failure? <==> accumulationSteps < 1 || !doTrain
    ensures r.Failure? ==> r.error == CheckConfig(trainBatchSize, accumulationSteps, doTrain).error
    ensures r.Success? ==>
      && accumulationSteps >= 1
      && r.value.0.globalStep == |losses| * (loaderLen / accumulationSteps)
      && r.value.0.pendingMicro < accumulationSteps
      && |r.value.1| == |losses| * loaderLen
  {
    var cfg := CheckConfig(trainBatchSize, accumulationSteps, doTrain);
    if cfg.Failure? {
      return Failure(cfg.error);
    }
    var s, trace := Train(cfg.value.accumulationSteps, startIterId, loaderLen, losses);
    r := Success((s, trace));
  }
}
