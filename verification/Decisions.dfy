/**
 Masked decisions: a softmax over the allowed logits and the first index of the greatest
 probability. The exponential is any positive, strictly increasing function of the reals;
 rounding is not modelled.
 */
module Decisions {
  import opened Wrappers

  type Exp = real -> real

  ghost predicate ExpLike(exp: Exp) {
    (forall x :: exp(x) > 0.0) && forall x, y :: Increases(exp, x, y)
  }

  predicate Increases(exp: Exp, x: real, y: real) {
    x < y ==> exp(x) < exp(y)
  }

  datatype DecisionError = NoLogits | LengthMismatch | NothingAllowed

  datatype MaskedDecision = MaskedDecision(selected: nat, probabilities: seq<real>)

  predicate SomeAllowed(mask: seq<bool>) {
    exists i | 0 <= i < |mask| :: mask[i]
  }

  /** `_validate`. */
  function Objection(logits: seq<real>, mask: seq<bool>): Option<DecisionError> {
    if logits == [] then Some(NoLogits)
    else if |logits| != |mask| then Some(LengthMismatch)
    else if !SomeAllowed(mask) then Some(NothingAllowed)
    else None
  }

  /** The first index of the greatest member. */
  function ArgMax(xs: seq<real>): (k: nat)
    requires xs != []
    ensures k < |xs|
  {
    var last := |xs| - 1;
    if last == 0 then 0
    else
      var k := ArgMax(xs[..last]);
      if xs[last] > xs[k] then last else k
  }

  lemma {:induction false} ArgMaxIsFirstGreatest(xs: seq<real>)
    requires xs != []
    ensures forall j | 0 <= j < |xs| :: xs[j] <= xs[ArgMax(xs)]
    ensures forall j | 0 <= j < ArgMax(xs) :: xs[j] < xs[ArgMax(xs)]
    decreases |xs|
  {
    var last := |xs| - 1;
    if last > 0 {
      ArgMaxIsFirstGreatest(xs[..last]);
      assert forall j | 0 <= j < last :: xs[j] == xs[..last][j];
    }
  }

  lemma FirstGreatestIsArgMax(xs: seq<real>, k: nat)
    requires k < |xs| && (forall j | 0 <= j < |xs| :: xs[j] <= xs[k]) && (forall j | 0 <= j < k :: xs[j] < xs[k])
    ensures ArgMax(xs) == k
  {
    ArgMaxIsFirstGreatest(xs);
  }

  /** The allowed logits; what is masked weighs nothing. */
  function Weights(logits: seq<real>, mask: seq<bool>, maximum: real, exp: Exp): (weights: seq<real>)
    requires |logits| == |mask|
    ensures |weights| == |logits|
    ensures forall i | 0 <= i < |logits| :: weights[i] == if mask[i] then exp(logits[i] - maximum) else 0.0
  {
    if logits == [] then []
    else [if mask[0] then exp(logits[0] - maximum) else 0.0] + Weights(logits[1..], mask[1..], maximum, exp)
  }

  function Sum(xs: seq<real>): real {
    if xs == [] then 0.0 else xs[0] + Sum(xs[1..])
  }

  function Scaled(xs: seq<real>, total: real): (ys: seq<real>)
    requires total != 0.0
    ensures |ys| == |xs| && forall i | 0 <= i < |xs| :: ys[i] == xs[i] / total
  {
    if xs == [] then [] else [xs[0] / total] + Scaled(xs[1..], total)
  }

  /** The greatest allowed logit, if there is one. */
  function GreatestAllowed(logits: seq<real>, mask: seq<bool>): Option<real>
    requires |logits| == |mask|
  {
    if logits == [] then None
    else
      match GreatestAllowed(logits[1..], mask[1..])
      case None => if mask[0] then Some(logits[0]) else None
      case Some(m) => Some(if mask[0] && logits[0] > m then logits[0] else m)
  }

  /** The greatest masked logit, which is finite once anything is allowed. */
  function MaximumOf(logits: seq<real>, mask: seq<bool>): real
    requires |logits| == |mask|
  {
    match GreatestAllowed(logits, mask)
    case Some(m) => m
    case None => 0.0
  }

  lemma {:induction false} SumOfNonNegative(xs: seq<real>, i: nat)
    requires i < |xs| && forall j | 0 <= j < |xs| :: xs[j] >= 0.0
    ensures Sum(xs) >= xs[i]
    decreases |xs|
  {
    if i > 0 {
      SumOfNonNegative(xs[1..], i - 1);
    } else if |xs| > 1 {
      SumOfNonNegative(xs[1..], 0);
    }
  }

  lemma WeightsArePositive(logits: seq<real>, mask: seq<bool>, maximum: real, exp: Exp)
    requires ExpLike(exp) && |logits| == |mask| && SomeAllowed(mask)
    ensures Sum(Weights(logits, mask, maximum, exp)) > 0.0
  {
    var i :| 0 <= i < |mask| && mask[i];
    SumOfNonNegative(Weights(logits, mask, maximum, exp), i);
  }

  function Decide(probabilities: seq<real>): MaskedDecision
    requires probabilities != []
  {
    MaskedDecision(ArgMax(probabilities), probabilities)
  }

  /** `masked_softmax_argmax` of the reference backend. */
  function MaskedSoftmaxArgmax(logits: seq<real>, mask: seq<bool>, exp: Exp): Result<MaskedDecision, DecisionError> {
    match Objection(logits, mask)
    case Some(error) => Err(error)
    case None =>
      var maximum := MaximumOf(logits, mask);
      var weights := Weights(logits, mask, maximum, exp);
      Ok(Decide(if Sum(weights) == 0.0 then weights else Scaled(weights, Sum(weights))))
  }

  /** The first allowed index with the greatest allowed logit. */
  predicate IsBestAllowed(logits: seq<real>, mask: seq<bool>, k: nat)
    requires |logits| == |mask|
  {
    && k < |logits| && mask[k]
    && (forall j | 0 <= j < |logits| && mask[j] :: logits[j] <= logits[k])
    && (forall j | 0 <= j < k && mask[j] :: logits[j] < logits[k])
  }

  lemma BestAllowedIsUnique(logits: seq<real>, mask: seq<bool>, i: nat, k: nat)
    requires |logits| == |mask| && IsBestAllowed(logits, mask, i) && IsBestAllowed(logits, mask, k)
    ensures i == k
  {
  }

  lemma Quotients(a: real, b: real, total: real)
    requires total > 0.0
    ensures a < b <==> a / total < b / total
    ensures a <= b <==> a / total <= b / total
    ensures a == 0.0 <==> a / total == 0.0
    ensures a >= 0.0 ==> a / total >= 0.0
  {
    var x, y := a / total, b / total;
    assert a == x * total && b == y * total;
    if x < y { ProductGrows(x, y, total); }
    if y < x { ProductGrows(y, x, total); }
    if x < 0.0 { ProductGrows(x, 0.0, total); }
  }

  lemma ProductGrows(x: real, y: real, total: real)
    requires x < y && total > 0.0
    ensures x * total < y * total
  {
    assert (y - x) * total > 0.0;
  }

  lemma {:induction false} SumScales(xs: seq<real>, total: real)
    requires total > 0.0
    ensures Sum(Scaled(xs, total)) == Sum(xs) / total
    decreases |xs|
  {
    if xs != [] {
      SumScales(xs[1..], total);
      assert Scaled(xs, total)[1..] == Scaled(xs[1..], total);
      assert xs[0] / total + Sum(xs[1..]) / total == (xs[0] + Sum(xs[1..])) / total;
    }
  }

  /** Dividing by a positive total keeps the first greatest and what is zero. */
  lemma ScalingKeepsOrder(weights: seq<real>, total: real)
    requires weights != [] && total > 0.0
    ensures var ps, k := Scaled(weights, total), ArgMax(Scaled(weights, total));
            && (forall j | 0 <= j < |weights| :: weights[j] <= weights[k])
            && (forall j | 0 <= j < k :: weights[j] < weights[k])
            && (forall j | 0 <= j < |weights| :: ps[j] == 0.0 <==> weights[j] == 0.0)
            && (forall j | 0 <= j < |weights| && weights[j] >= 0.0 :: ps[j] >= 0.0)
  {
    var ps := Scaled(weights, total);
    ArgMaxIsFirstGreatest(ps);
    var k := ArgMax(ps);
    forall i | 0 <= i < |weights|
      ensures weights[i] <= weights[k] && (i < k ==> weights[i] < weights[k])
      ensures (ps[i] == 0.0 <==> weights[i] == 0.0) && (weights[i] >= 0.0 ==> ps[i] >= 0.0)
    {
      Quotients(weights[i], weights[k], total);
    }
  }

  lemma ExpKeepsOrder(exp: Exp, x: real, y: real)
    requires ExpLike(exp)
    ensures exp(x) <= exp(y) <==> x <= y
  {
    assert Increases(exp, x, y) && Increases(exp, y, x);
  }

  /** The first greatest weight is the best allowed logit's. */
  lemma GreatestWeightIsBestAllowed(logits: seq<real>, mask: seq<bool>, maximum: real, exp: Exp, weights: seq<real>,
                                    k: nat)
    requires ExpLike(exp) && |logits| == |mask| == |weights| && SomeAllowed(mask) && k < |logits|
    requires forall j | 0 <= j < |weights| :: weights[j] == if mask[j] then exp(logits[j] - maximum) else 0.0
    requires forall j | 0 <= j < |weights| :: weights[j] <= weights[k]
    requires forall j | 0 <= j < k :: weights[j] < weights[k]
    ensures IsBestAllowed(logits, mask, k)
  {
    var a :| 0 <= a < |mask| && mask[a];
    assert weights[a] > 0.0 && weights[a] <= weights[k];
    forall j | 0 <= j < |logits| && mask[j]
      ensures logits[j] <= logits[k] && (j < k ==> logits[j] < logits[k])
    {
      ExpKeepsOrder(exp, logits[j] - maximum, logits[k] - maximum);
    }
  }

  /**
   The masked decision picks an allowed index, the first with the greatest allowed logit,
   whatever the masked logits are. Its probabilities add up to one, and exactly the masked
   ones are zero.
   */
  lemma DecisionIsBestAllowed(logits: seq<real>, mask: seq<bool>, exp: Exp)
    requires ExpLike(exp) && Objection(logits, mask) == None
    ensures var r := MaskedSoftmaxArgmax(logits, mask, exp);
            && r.Ok? && IsBestAllowed(logits, mask, r.value.selected)
            && |r.value.probabilities| == |logits| && Sum(r.value.probabilities) == 1.0
            && (forall i | 0 <= i < |logits| :: r.value.probabilities[i] >= 0.0)
            && (forall i | 0 <= i < |logits| :: r.value.probabilities[i] == 0.0 <==> !mask[i])
  {
    var maximum := MaximumOf(logits, mask);
    var weights := Weights(logits, mask, maximum, exp);
    WeightsArePositive(logits, mask, maximum, exp);
    Normalising(weights, mask);
    DecisionIs(logits, mask, exp, weights);
    GreatestWeightIsBestAllowed(logits, mask, maximum, exp, weights, ArgMax(Scaled(weights, Sum(weights))));
  }

  lemma DecisionIs(logits: seq<real>, mask: seq<bool>, exp: Exp, weights: seq<real>)
    requires Objection(logits, mask) == None && weights == Weights(logits, mask, MaximumOf(logits, mask), exp)
    requires |weights| > 0 && Sum(weights) > 0.0
    ensures var r := MaskedSoftmaxArgmax(logits, mask, exp);
            && r.Ok? && r.value.probabilities == Scaled(weights, Sum(weights))
            && r.value.selected == ArgMax(Scaled(weights, Sum(weights)))
  {
  }

  lemma WholeOfItself(x: real)
    requires x > 0.0
    ensures x / x == 1.0
  {
  }

  lemma Normalising(weights: seq<real>, mask: seq<bool>)
    requires |weights| == |mask| > 0 && Sum(weights) > 0.0
    requires forall i | 0 <= i < |weights| :: weights[i] >= 0.0 && (weights[i] == 0.0 <==> !mask[i])
    ensures var ps, k := Scaled(weights, Sum(weights)), ArgMax(Scaled(weights, Sum(weights)));
            && Sum(ps) == 1.0
            && (forall i | 0 <= i < |ps| :: ps[i] >= 0.0 && (ps[i] == 0.0 <==> !mask[i]))
            && (forall j | 0 <= j < |weights| :: weights[j] <= weights[k])
            && (forall j | 0 <= j < k :: weights[j] < weights[k])
  {
    SumScales(weights, Sum(weights));
    WholeOfItself(Sum(weights));
    ScalingKeepsOrder(weights, Sum(weights));
  }

  // ----- The tensor backend -----

  const FLOOR: real := -1000000000.0

  /** Masking by a very low logit instead of leaving out. */
  function Floored(logits: seq<real>, mask: seq<bool>): (floored: seq<real>)
    requires |logits| == |mask|
    ensures |floored| == |logits|
    ensures forall i | 0 <= i < |logits| :: floored[i] == if mask[i] then logits[i] else FLOOR
  {
    if logits == [] then [] else [if mask[0] then logits[0] else FLOOR] + Floored(logits[1..], mask[1..])
  }

  /** What the tensor backend selects; a softmax keeps the order of the floored logits. */
  function FlooredChoice(logits: seq<real>, mask: seq<bool>): (k: nat)
    requires |logits| == |mask| && logits != []
    ensures k < |logits|
  {
    ArgMax(Floored(logits, mask))
  }

  /**
   The tensor backend keeps to the mask, and then decides as the reference backend does,
   exactly when the best allowed logit is above the floor, or on it with nothing masked
   before it, or when nothing is masked.
   */
  lemma FlooringRespectsMaskIff(logits: seq<real>, mask: seq<bool>, best: nat)
    requires Objection(logits, mask) == None && IsBestAllowed(logits, mask, best)
    ensures mask[FlooredChoice(logits, mask)] <==> FlooredChoice(logits, mask) == best
    ensures mask[FlooredChoice(logits, mask)] <==>
      || logits[best] > FLOOR
      || (logits[best] == FLOOR && forall j | 0 <= j < best :: mask[j])
      || (forall j | 0 <= j < |mask| :: mask[j])
  {
    var floored := Floored(logits, mask);
    ArgMaxIsFirstGreatest(floored);
    if logits[best] > FLOOR || (logits[best] == FLOOR && forall j | 0 <= j < best :: mask[j])
       || (forall j | 0 <= j < |mask| :: mask[j]) {
      FirstGreatestIsArgMax(floored, best);
    }
  }

  /** A masked entry is selected when the only allowed logit is below the floor. */
  lemma FloorIsSelected()
    ensures var logits, mask := [0.0, 2.0 * FLOOR], [false, true];
            Objection(logits, mask) == None && IsBestAllowed(logits, mask, 1) && FlooredChoice(logits, mask) == 0
  {
    var logits, mask := [0.0, 2.0 * FLOOR], [false, true];
    assert mask[1];
    FlooringRespectsMaskIff(logits, mask, 1);
  }
}
