# Training-loop core of `run_vqa.py`, modelled in Dafny

`run_vqa.py` fine-tunes a multimodal BERT model for visual question
answering. Most of it is GPU and library plumbing. This project pulls out the
pure logic inside it and proves properties of that logic:

- **Accumulation** (`accumulation.dfy`) covers the gradient-accumulation step machine:
  - the start-up check that rejects `gradient_accumulation_steps < 1`;
  - the floor division of `train_batch_size` by the accumulation factor K;
  - `optimizer.zero_grad()` at every epoch start;
  - the loss divided by K when K > 1;
  - an optimizer step that "fires" exactly when `(step + 1) % K == 0`, advancing `global_step` by one;
  - the logged iteration id `startIterID + step + epochId * len(loader)`.

  The state is an immutable record `StepState(globalStep, pendingMicro)` with a pure transition `MicroStep`. `TrainEpoch` and `Train` run it over an epoch and over a run.
- **ParamGroups** (`param_groups.dfy`) builds the optimizer parameter groups. Python's substring test `nd in name` is checked against the `no_decay` patterns `["bias", "LayerNorm.bias", "LayerNorm.weight"]`. There are two branches:
  - two weight-decay groups, used when not starting from a pretrained multimodal checkpoint;
  - one singleton group per trainable parameter, all at the base learning rate.
- **Metrics** (`metrics.dfy`) holds `compute_score_with_logits`, which is the target weight at the argmax of the logits. It also holds the upper bound, which is the row maximum of the targets. `evaluate` divides both sums by the number of held-out examples, and the training score is given as a percentage.
- **LrSchedule** (`lr_schedule.dfy`) is `lr_lambda_update`: a linear warmup from 0.2 to 1.0 over 1000 iterations, then `0.1 ** bisect([], i)`.
- **Checkpoint** (`checkpoint.dfy`) builds the per-epoch file name `"pytorch_model_" + str(epochId) + ".bin"` and joins it onto the save directory.
- **Results** (`results.dfy`) defines the `Option`/`Result` types used for the script's exceptions.

The model leaves out several things:
- Tensors are rows of `real`, so there is no rounding, NaN or infinity.
- The Python floats of `lr_lambda_update` are exact reals.
- The loss is an opaque real number.
- The optimizer step, gradient clipping and backward pass are one opaque "fire" event.
- `bert_weight_name.json` and the per-epoch losses are parameters.

The constants of `lr_lambda_update` describe a step decay by 0.1 at 15000, 18000, 20000 and 21000 iterations, but the code does not perform it, and the model follows the code. `lr_lambda_update` looks the iteration up in an empty list, so it is 1.0 at every iteration after warmup. The milestone variant is modelled separately under "## Findings". The script never installs either variant: the `LambdaLR` scheduler is commented out.

## Model

| member | source | states |
|---|---|---|
| Accumulation.CheckConfig | run_vqa.py:224-242 | The run fails with `InvalidAccumulationSteps(K)` exactly when K < 1. It fails with `TrainingNotRequested` exactly when K >= 1 and do_train is off. Otherwise the micro-batch size m is the floor quotient of the batch size by K: `m*K <= batch < (m+1)*K`. |
| Accumulation.StartEpoch | run_vqa.py:424 | Zeroing gradients at epoch start drops every pending micro-batch and keeps the global step count. |
| Accumulation.ScaleLoss | run_vqa.py:444-445 | The loss handed to backward, multiplied by K, gives back the raw loss. It is the raw loss itself when K == 1. |
| Accumulation.MicroStep | run_vqa.py:459-473 | A micro-batch fires iff `(step+1) % K == 0`. A fire raises global_step by exactly 1 and empties the pending window. A non-fire leaves global_step alone and adds one pending micro-batch. |
| Accumulation.MicroStepKeepsWindow | run_vqa.py:424-473 | If micro-batch `step` starts with `step % K` pending and `g0 + step / K` steps, the next one starts with `(step+1) % K` pending and `g0 + (step+1) / K` steps. So pending is always < K. |
| Accumulation.IterIdDecodes | run_vqa.py:427-428 | For an in-range step, the id minus the start id decodes back to the epoch (quotient by the loader length) and the step (remainder). |
| Accumulation.IterIdLexMonotone | run_vqa.py:427-428 | When `step < len(loader)`, iteration ids strictly increase in (epoch, step) lexicographic order. |
| Accumulation.IterIdInjective | run_vqa.py:427-428 | No two (epoch, step) pairs of a run share an iteration id. |
| Accumulation.TrainEpoch | run_vqa.py:419-473 | In an epoch of N micro-batches, the optimizer fires on exactly the micro-batches with `(i+1) % K == 0`, N / K times in all. global_step grows by N / K, and N % K (< K) micro-batches are left pending. Every backward loss is the scaled loss, and the i-th iteration id is `start + i + epoch*N`. |
| Accumulation.Train | run_vqa.py:409-473 | After E epochs over a loader of N micro-batches, global_step is `E * (N / K)` and equals the number of fires. Pending stays < K. The iteration ids of the whole run are `start, start+1, ...` in order, so they are strictly increasing. |
| Accumulation.CheckedTrain | run_vqa.py:224-242 | The run stops with the start-up error exactly when K < 1 or do_train is off, and the error is the one the check reports. Otherwise the loop runs with the checked K, ends at global_step `E * (N / K)` with fewer than K micro-batches pending, and yields `E * N` micro-batch events. |
| Accumulation.CountFiredAppend | run_vqa.py:459-473 | The fires of a concatenated trace are the fires of its parts added up. |
| ParamGroups.ContainsIffOccurs | run_vqa.py:322 | The scanning substring test `nd in n` holds iff the pattern occurs at some position of the name. |
| ParamGroups.AnyContained | run_vqa.py:322 | `any(nd in n for nd in no_decay)` holds iff some pattern of the list is a substring of the name. |
| ParamGroups.NoDecayIffBiasOrLayerNormWeight | run_vqa.py:316 | A name is exempt from decay iff it contains "bias" or "LayerNorm.weight". "LayerNorm.bias" is subsumed by "bias". |
| ParamGroups.FilterByDecay | run_vqa.py:322-326 | Each comprehension keeps only parameters of the requested exemption status, and keeps all of them. |
| ParamGroups.FilterByDecayAppend | run_vqa.py:322-326 | The comprehension preserves order: filtering a concatenation gives the concatenation of the filtered parts. |
| ParamGroups.FilterByDecayPartition | run_vqa.py:319-329 | The two comprehensions together hold every parameter exactly as often as the input does (multiset equality). Their sizes add up to the input size. |
| ParamGroups.DecayGroups | run_vqa.py:318-329 | The non-pretrained branch yields exactly two groups. The first has weight decay 0.01 and holds exactly the parameters with no no_decay pattern. The second has weight decay 0.0 and holds exactly the rest. Each group keeps the input order, and frozen parameters are included. |
| ParamGroups.DropPrefix | run_vqa.py:335 | `key[12:]` is what follows the first 12 characters, or empty when the key is shorter. |
| ParamGroups.SingletonGroups | run_vqa.py:330-348 | The pretrained branch yields at most one group per parameter. Every group holds a single trainable parameter of the model at the base learning rate. |
| ParamGroups.SingletonGroupsOnePerTrainable | run_vqa.py:330-348 | The pretrained branch yields exactly one group per requires_grad parameter, in order. Each group holds just that parameter at the base learning rate. Frozen parameters yield no group. |
| ParamGroups.SingletonGroupsIgnoreWeightNames | run_vqa.py:331-338 | The groups do not depend on the bert_weight_name list, because both arms of the test pick the same rate. |
| ParamGroups.BuildParamGroups | run_vqa.py:316-348 | Without from_pretrained, there are two groups that partition the parameters. With it, there are as many groups as trainable parameters, and each is a singleton at the base learning rate. |
| Metrics.ArgMax | run_vqa.py:554 | Returns an index of a maximal logit, namely the first one. |
| Metrics.RowMax | run_vqa.py:540 | Returns a value of the row that bounds every entry. |
| Metrics.ScoreRow | run_vqa.py:553-558 | The score row has the target's width. For some maximal-logit index k, it is zero everywhere except at k, where it equals the target weight. |
| Metrics.ExampleScore | run_vqa.py:553-558 | An example's score is the target weight of some top-1 candidate, hence at most the example's largest target weight. |
| Metrics.ExampleScoreHit | run_vqa.py:553-558 | Logits [0.1,0.9,0.2] against targets [0,1,0] score 1. |
| Metrics.ExampleScoreMiss | run_vqa.py:553-558 | Logits [0.9,0.1,0.2] against targets [0,1,0] score 0. |
| Metrics.BatchBoundIsRowMaxSum | run_vqa.py:540 | The batch's upper bound, accumulated example by example, equals the sum of the vector of row maxima `target.max(1)[0]`. |
| Metrics.BatchScore | run_vqa.py:538-540 | A batch's summed score never exceeds its summed row maxima. |
| Metrics.TotalScoreLeBound | run_vqa.py:533-541 | Over the held-out set, the summed score never exceeds the summed upper bound. |
| Metrics.Evaluate | run_vqa.py:529-545 | Fails exactly when the held-out set is empty, which is a division by zero. Otherwise it returns the summed score and the summed row maxima, each divided by the number of examples. The mean score is at most the mean upper bound. |
| Metrics.TrainScorePercent | run_vqa.py:499 | Fails exactly on an empty training set. Otherwise it is 100 times the mean score, and it never exceeds 100 times the mean upper bound. |
| LrSchedule.Bisect | run_vqa.py:569 | On a sorted list, returns the count of elements <= x. Every element before the result is <= x, and every element from it on is > x. |
| LrSchedule.LrLambdaUpdate | run_vqa.py:560-570 | The multiplier is 0.2 at iteration 0 and exactly 1.0 from iteration 1000 on, so it is continuous at the warmup boundary. For i >= 0 it stays within [0.2, 1.0]. |
| LrSchedule.WarmupSlope | run_vqa.py:565-567 | Within warmup, the multiplier rises by 0.0008 per iteration. |
| LrSchedule.LrLambdaUpdateMonotone | run_vqa.py:560-570 | The multiplier never decreases as the iteration grows. |
| LrSchedule.LrLambdaIgnoresMilestones | run_vqa.py:564-570 | As written, the multiplier is 1.0 at every milestone in lr_steps, including 15000. |
| LrSchedule.LrLambdaMilestones | run_vqa.py:560-570 | With lr_steps in the lookup, warmup is unchanged, and after warmup the multiplier lies in (0, 1]. |
| LrSchedule.LrLambdaMilestoneValues | run_vqa.py:563-570 | With lr_steps in the lookup, the multiplier is 1.0 at 1000, 1001 and 14999. It is 0.1 at 15000, 0.01 at 18000 and 19000, and 0.0001 at 21000. A step landing on a milestone counts as past it. |
| LrSchedule.LrLambdaMilestonesDecay | run_vqa.py:563-570 | After warmup, the milestone multiplier never increases. |
| LrSchedule.PowRatioAntitone | run_vqa.py:570 | More decay steps of 0.1 never give a larger multiplier. |
| LrSchedule.BisectMonotone | run_vqa.py:569 | A later iteration has passed at least as many milestones. |
| Checkpoint.NatToString | run_vqa.py:516 | `str(epochId)` is a canonical decimal spelling: non-empty, all digits, no leading zero. |
| Checkpoint.CheckpointFileName | run_vqa.py:516 | The name starts with `pytorch_model_` and ends with `.bin`. Between them is a canonical decimal string whose value is the epoch. |
| Checkpoint.ParseNatToString | run_vqa.py:516 | Parsing `str(n)` gives back n. |
| Checkpoint.NatToStringParse | run_vqa.py:516 | Spelling out a parsed canonical digit string gives back the string. |
| Checkpoint.NatToStringInjective | run_vqa.py:516 | Two epochs with the same spelling are the same epoch. |
| Checkpoint.ParseCheckpointFileName | run_vqa.py:516 | A file name it accepts is exactly the checkpoint name of the epoch it returns. |
| Checkpoint.CheckpointFileNameRoundTrip | run_vqa.py:516 | Every epoch's checkpoint name parses back to that epoch. |
| Checkpoint.CheckpointFileNameInjective | run_vqa.py:516 | Distinct epochs get distinct checkpoint file names. |
| Checkpoint.PathJoin | run_vqa.py:516 | POSIX `os.path.join`: an absolute name replaces the directory. Otherwise the name follows the directory directly when the directory is empty or ends in `/`, and after exactly one inserted `/` when it does not. |
| Checkpoint.CheckpointPath | run_vqa.py:514-516 | The path is the save directory, then at most one inserted `/`, then a last component that parses back to the epoch. |
| Checkpoint.CheckpointPathInjective | run_vqa.py:514-518 | Within one save directory, distinct epochs write to distinct paths, so no checkpoint overwrites another. |

## Findings

| source | as written | input that shows it | evidently intended | confidence | as-written member | corrected member |
|---|---|---|---|---|---|---|
| run_vqa.py:569 | `idx = bisect([], i_iter)` looks the iteration up in an empty list, so the defined `lr_steps` milestones are never used | `i_iter = 15000` gives 1.0 | `bisect(lr_steps, i_iter)`, giving 0.1 at 15000 and 0.0001 from 21000 | medium (the scheduler that would call it is commented out, so disabling the decay may have been deliberate); not executed | LrSchedule.LrLambdaIgnoresMilestones | LrSchedule.LrLambdaMilestones |

`LrSchedule.LrLambdaUpdate` models the code as written. `LrSchedule.LrLambdaMilestones` is the corrected definition, and `LrSchedule.LrLambdaMilestoneValues` proves its milestone values. Nothing else in the script calls either one.

## Left out

- Tensors and device transfers (`.cuda()`) are left out: they are device I/O. DataLoader shuffling and workers are left out too, and so is the model's forward pass, which is an opaque network. Logits, targets and losses are inputs.
- `instance_bce_with_logits` is left out because it is floating-point `log`/`exp` numerics. The loss is an abstract real.
- The optimizer is left out. This covers FP16_Optimizer / FusedAdam with static or dynamic loss scaling, BertAdam, `WarmupLinearSchedule` and the fp16 per-step `lr_this_step` rewrite. They are library code, and a fire is modelled only as an event.
- `clip_grad_norm_(…, 0.25)` is library floating-point code and is folded into the fire event.
- The `loss.mean()` over replicas with more than one GPU is left out. So are DDP / DataParallel wrapping, the world-size division and unwrapping `model.module` before saving. All of these belong to replication across devices and processes.
- `num_train_optimization_steps` is left out. It is a float division that feeds only the optimizer and the logger.
- The following are left out as observability only: argparse, the TensorBoard logger, timers, the every-20-steps throughput print with its `loss_tmp` smoothing, `total_loss`, `nb_tr_examples` and `nb_tr_steps`. The `num_data` counter in `evaluate` is kept in `Metrics.Evaluate` as the divisor; the source computes it but divides by `len(dataloader.dataset)`, and the two agree (see the `Metrics.Evaluate` line).
- The timestamp/random save-directory name, `torch.save`, `command.txt` and directory creation are left out because they are clock, randomness and file I/O. The save directory is a parameter of `Checkpoint.CheckpointPath`.
- Dataset construction and the split selection are left out. This includes the undefined `image_features_reader_train` name, which would fail at run time.
- The side effects that precede the accumulation check are left out: the save directory, `command.txt`, the device choice and the distributed init at lines 197-222. So the check rejects K < 1 only after those have run.
- A micro-batch size of 0 (when K exceeds the batch size) is left out. `CheckConfig` computes it, but the script then fails with a ZeroDivisionError at line 281, where `num_train_optimization_steps` divides `len(train_dset)` by it.
- Metrics.ArgMax: ties among maximal logits resolve to the first index. No contract relies on this, because torch does not specify which maximal index it returns.
- Metrics.Evaluate: the model divides by the number of examples the loader yields. That equals `len(dataloader.dataset)` because the evaluation loader neither drops nor repeats examples.
- Metrics.TrainScorePercent: the model divides by the number of examples the training loader yields. That equals `len(train_dataloader.dataset)` because the training loader neither drops nor repeats examples.
- ParamGroups.SingletonGroups: `dict(model.named_parameters())` is treated as the same ordered list. `named_parameters()` yields distinct names, so the dict keeps every entry in order.
- Accumulation.Train: every epoch's loader has the same length, as `len(train_dataloader)` is fixed for the run.
- LrSchedule.LrLambdaUpdate: the multiplier is computed in exact reals, not binary64 floats. In floats, `0.1 ** 4` is not exactly 0.0001 and the 0.0008 warmup slope of `LrSchedule.WarmupSlope` holds only up to rounding. The same holds for `LrSchedule.LrLambdaMilestones` and its milestone values.
