/** Optimizer parameter grouping in run_vqa.py. The model's named parameters
    are split either into two weight-decay groups (training from the BERT
    checkpoint) or into one singleton group per trainable parameter, all at
    the same learning rate (training from a pretrained multimodal
    checkpoint). A name is "no decay" when any of the three no_decay
    patterns occurs in it as a substring. */
module ParamGroups {

  /** A named parameter as named_parameters() yields it; the tensor itself
      is opaque and only its name and requires_grad flag matter here. */
  datatype Param = Param(name: string, requiresGrad: bool)

  /** An optimizer parameter group: either {"params", "weight_decay"} or
      {"params", "lr"}; keys a group lacks take the optimizer's defaults. */
  datatype ParamGroup =
    | DecayGroup(params: seq<Param>, weightDecay: real)
    | RateGroup(params: seq<Param>, lr: real)

  const NoDecayPatterns: seq<string> := ["bias", "LayerNorm.bias", "LayerNorm.weight"]

  /** The weight decay of the group of parameters that do decay. */
  const DecayRate: real := 0.01

  /** `pat` occurs in `s` starting at position i. */
  ghost predicate OccursAt(s: string, pat: string, i: int)
  {
    0 <= i && i + |pat| <= |s| && s[i..i + |pat|] == pat
  }

  /** Python's `pat in s` on strings, by scanning s for a prefix equal to pat. */
  function Contains(s: string, pat: string): bool
    decreases |s|
  {
    if pat <= s then true
    else if |s| == 0 then false
    else Contains(s[1..], pat)
  }

  /** The scan agrees with the positional definition of a substring. */
  lemma ContainsIffOccurs(s: string, pat: string)
    ensures Contains(s, pat) <==> exists i :: OccursAt(s, pat, i)
  {
    if Contains(s, pat) {
      ContainsHasOccurrence(s, pat);
    }
    if exists i :: OccursAt(s, pat, i) {
      var i :| OccursAt(s, pat, i);
      OccurrenceIsContained(s, pat, i);
    }
  }

  lemma {:induction false} ContainsHasOccurrence(s: string, pat: string)
    requires Contains(s, pat)
    ensures exists i :: OccursAt(s, pat, i)
    decreases |s|
  {
    if pat <= s {
      assert s[0..|pat|] == pat;
      assert OccursAt(s, pat, 0);
    } else {
      ContainsHasOccurrence(s[1..], pat);
      var i :| OccursAt(s[1..], pat, i);
      assert s[i + 1..i + 1 + |pat|] == s[1..][i..i + |pat|];
      assert OccursAt(s, pat, i + 1);
    }
  }

  lemma {:induction false} OccurrenceIsContained(s: string, pat: string, i: int)
    requires OccursAt(s, pat, i)
    ensures Contains(s, pat)
    decreases i
  {
    if i == 0 {
      assert s[..|pat|] == pat;
    } else {
      assert s[1..][i - 1..i - 1 + |pat|] == s[i..i + |pat|];
      OccurrenceIsContained(s[1..], pat, i - 1);
    }
  }

  /** any(nd in name for nd in pats). */
  function AnyContained(pats: seq<string>, name: string): (b: bool)
    ensures b <==> exists j :: 0 <= j < |pats| && Contains(name, pats[j])
  {
    if |pats| == 0 then false
    else Contains(name, pats[0]) || AnyContained(pats[1..], name)
  }

  /** The parameter named `name` is excluded from weight decay. */
  predicate NoDecay(name: string)
  {
    AnyContained(NoDecayPatterns, name)
  }

  /** "LayerNorm.bias" adds nothing to the pattern list: every name holding
      it also holds "bias". So a parameter is exempt from decay exactly
      when its name mentions "bias" or "LayerNorm.weight". */
  lemma NoDecayIffBiasOrLayerNormWeight(name: string)
    ensures NoDecay(name) <==> Contains(name, "bias") || Contains(name, "LayerNorm.weight")
  {
    assert NoDecay(name) <==>
      Contains(name, "bias") || Contains(name, "LayerNorm.bias") || Contains(name, "LayerNorm.weight")
    by {
      assert NoDecayPatterns[0] == "bias" && NoDecayPatterns[1] == "LayerNorm.bias";
      assert NoDecayPatterns[2] == "LayerNorm.weight";
    }
    if Contains(name, "LayerNorm.bias") {
      ContainsIffOccurs(name, "LayerNorm.bias");
      var i :| OccursAt(name, "LayerNorm.bias", i);
      assert name[i + 10..i + 14] == name[i..i + 14][10..14];
      assert "LayerNorm.bias"[10..14] == "bias";
      assert OccursAt(name, "bias", i + 10);
      ContainsIffOccurs(name, "bias");
    }
  }

  /** [p for p in params if any(nd in p.name for nd in no_decay) == exempt]. */
  function FilterByDecay(params: seq<Param>, exempt: bool): (r: seq<Param>)
    ensures |r| <= |params|
    ensures forall p :: p in r ==> p in params && NoDecay(p.name) == exempt
    ensures forall p :: p in params && NoDecay(p.name) == exempt ==> p in r
  {
    if |params| == 0 then []
    else
      var rest := FilterByDecay(params[1..], exempt);
      if NoDecay(params[0].name) == exempt then [params[0]] + rest else rest
  }

  /** The filter keeps the input order: it maps a concatenation to the
      concatenation of the filtered parts. */
  lemma {:induction false} FilterByDecayAppend(a: seq<Param>, b: seq<Param>, exempt: bool)
    ensures FilterByDecay(a + b, exempt) == FilterByDecay(a, exempt) + FilterByDecay(b, exempt)
    decreases |a|
  {
    if |a| == 0 {
      assert a + b == b;
    } else {
      assert (a + b)[1..] == a[1..] + b;
      FilterByDecayAppend(a[1..], b, exempt);
    }
  }

  /** Every parameter lands in exactly one of the two filters, as often as
      it occurs in the input. */
  lemma {:induction false} FilterByDecayPartition(params: seq<Param>)
    ensures multiset(FilterByDecay(params, false)) + multiset(FilterByDecay(params, true))
            == multiset(params)
    ensures |FilterByDecay(params, false)| + |FilterByDecay(params, true)| == |params|
  {
    if |params| > 0 {
      FilterByDecayPartition(params[1..]);
      assert params == [params[0]] + params[1..];
    }
  }

  /** The two groups of the non-pretrained branch: decay 0.01 for names
      with no no_decay pattern, decay 0.0 for the rest. Every parameter is
      grouped, whether or not it requires grad. */
  function DecayGroups(params: seq<Param>): (r: seq<ParamGroup>)
    ensures |r| == 2
    ensures r[0].DecayGroup? && r[0].weightDecay == DecayRate
    ensures r[1].DecayGroup? && r[1].weightDecay == 0.0
    ensures r[0].params == FilterByDecay(params, false) && r[1].params == FilterByDecay(params, true)
    ensures forall p :: p in r[0].params <==> p in params && !NoDecay(p.name)
    ensures forall p :: p in r[1].params <==> p in params && NoDecay(p.name)
    ensures multiset(r[0].params) + multiset(r[1].params) == multiset(params)
  {
    FilterByDecayPartition(params);
    [DecayGroup(FilterByDecay(params, false), DecayRate), DecayGroup(FilterByDecay(params, true), 0.0)]
  }

  /** key[12:], with Python's clamping when the key is shorter. */
  function DropPrefix(key: string, n: nat): (r: string)
    ensures |key| >= n ==> key == key[..n] + r
    ensures |key| < n ==> r == []
  {
    if |key| >= n then key[n..] else []
  }

  /** The pretrained branch: walk the parameters in order; a trainable one
      gets a learning rate (the same on both arms of the bert_weight_name
      test) and is appended as a singleton group by whichever of the two
      complementary no_decay tests holds. */
  function SingletonGroups(params: seq<Param>, bertWeightNames: seq<string>, learningRate: real)
    : (r: seq<ParamGroup>)
    ensures |r| <= |params|
    ensures forall g :: g in r ==>
      && g.RateGroup? && g.lr == learningRate && |g.params| == 1
      && g.params[0] in params && g.params[0].requiresGrad
  {
    if |params| == 0 then []
    else
      var p := params[0];
      var rest := SingletonGroups(params[1..], bertWeightNames, learningRate);
      if p.requiresGrad then
        var lr := if DropPrefix(p.name, 12) in bertWeightNames then learningRate else learningRate;
        var exempt := if NoDecay(p.name) then [RateGroup([p], lr)] else [];
        var decays := if !NoDecay(p.name) then [RateGroup([p], lr)] else [];
        exempt + decays + rest
      else rest
  }

  /** The trainable parameters, in order. */
  function Trainable(params: seq<Param>): (r: seq<Param>)
    ensures forall p :: p in r <==> p in params && p.requiresGrad
  {
    if |params| == 0 then []
    else if params[0].requiresGrad then [params[0]] + Trainable(params[1..])
    else Trainable(params[1..])
  }

  /** The pretrained branch yields one group per trainable parameter, in
      order, each holding just that parameter at the base learning rate;
      frozen parameters yield nothing. */
  lemma {:induction false} SingletonGroupsOnePerTrainable(params: seq<Param>, bertWeightNames: seq<string>,
                                                         learningRate: real)
    ensures |SingletonGroups(params, bertWeightNames, learningRate)| == |Trainable(params)|
    ensures forall i :: 0 <= i < |Trainable(params)| ==>
      SingletonGroups(params, bertWeightNames, learningRate)[i] == RateGroup([Trainable(params)[i]], learningRate)
  {
    if |params| > 0 {
      SingletonGroupsOnePerTrainable(params[1..], bertWeightNames, learningRate);
    }
  }

  /** The bert_weight_name list has no influence on the groups. */
  lemma {:induction false} SingletonGroupsIgnoreWeightNames(params: seq<Param>, names1: seq<string>,
                                                           names2: seq<string>, learningRate: real)
    ensures SingletonGroups(params, names1, learningRate) == SingletonGroups(params, names2, learningRate)
  {
    if |params| > 0 {
      SingletonGroupsIgnoreWeightNames(params[1..], names1, names2, learningRate);
    }
  }

  /** The optimizer's parameter groups, by the from_pretrained flag. The
      bert_weight_name list is read from a JSON file and passed in. */
  function BuildParamGroups(fromPretrained: bool, params: seq<Param>, bertWeightNames: seq<string>,
                            learningRate: real): (r: seq<ParamGroup>)
    ensures !fromPretrained ==> |r| == 2 && multiset(r[0].params) + multiset(r[1].params) == multiset(params)
    ensures fromPretrained ==> |r| == |Trainable(params)|
    ensures fromPretrained ==> forall g :: g in r ==> g.RateGroup? && g.lr == learningRate && |g.params| == 1
  {
    if !fromPretrained then DecayGroups(params)
    else
      SingletonGroupsOnePerTrainable(params, bertWeightNames, learningRate);
      SingletonGroups(params, bertWeightNames, learningRate)
  }
}
