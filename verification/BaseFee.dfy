/** The base fee rule and effective prices of src/execution.rs. */
module BaseFee {
  import opened Common

  const MIN_BASE_FEE: nat := 1
  const ELASTICITY_DENOM: nat := 8
  const MAX_FEE: nat := U64_LIMIT - 1

  /** The change for a distance from the target. Products are taken without a bound here;
      `CheckedBaseFee` has the overflow check. */
  function FeeStep(fee: nat, distance: nat, target: nat): nat
    requires target > 0
  {
    fee * distance / target / ELASTICITY_DENOM
  }

  function Raised(fee: nat, delta: nat): nat { Max(SaturatingAdd(fee, delta), MIN_BASE_FEE) }

  function Lowered(fee: nat, delta: nat): nat { Max(SaturatingSub(fee, delta), MIN_BASE_FEE) }

  /** The base fee of the next block. */
  function NextBaseFee(current: nat, gasUsed: nat, gasTarget: nat): nat
  {
    var fee := Max(current, MIN_BASE_FEE);
    if gasTarget == 0 || gasUsed == gasTarget then fee
    else if gasUsed > gasTarget then Raised(fee, Max(FeeStep(fee, gasUsed - gasTarget, gasTarget), 1))
    else Lowered(fee, FeeStep(fee, gasTarget - gasUsed, gasTarget))
  }

  function Distance(gasUsed: nat, target: nat): nat
  {
    if gasUsed > target then gasUsed - target else target - gasUsed
  }

  /** The base fee with the overflow check of the product; `None` is an overflow. */
  function CheckedBaseFee(current: nat, gasUsed: nat, gasTarget: nat): Option<nat>
  {
    if gasTarget > 0 && Max(current, MIN_BASE_FEE) * Distance(gasUsed, gasTarget) >= U64_LIMIT then None
    else Some(NextBaseFee(current, gasUsed, gasTarget))
  }

  /** No block within twice the target overflows exactly when the fee times the target fits a word. */
  lemma TargetFitsIff(current: nat, target: nat)
    ensures (forall gasUsed: nat :: gasUsed <= 2 * target ==> CheckedBaseFee(current, gasUsed, target).Some?)
            <==> Max(current, MIN_BASE_FEE) * target < U64_LIMIT
  {
    var fee := Max(current, MIN_BASE_FEE);
    forall gasUsed: nat | gasUsed <= 2 * target ensures fee * Distance(gasUsed, target) <= fee * target {
      MulMonotone(fee, Distance(gasUsed, target), target);
    }
    if fee * target >= U64_LIMIT {
      assert CheckedBaseFee(current, 0, target).None?;
    }
  }

  /** An empty block at a target of 43 million gas overflows at a fee of 10^12. */
  lemma FeeOverflows()
    ensures CheckedBaseFee(1_000_000_000_000, 0, 43_000_000).None?
  {
  }

  lemma RaisedBounds(fee: nat, a: nat, b: nat)
    requires MIN_BASE_FEE <= fee <= MAX_FEE && a <= b
    ensures fee <= Raised(fee, a) <= Raised(fee, b) <= MAX_FEE && Raised(fee, b) <= fee + b
  {
  }

  lemma LoweredBounds(fee: nat, a: nat, b: nat)
    requires MIN_BASE_FEE <= fee <= MAX_FEE && a <= b
    ensures MIN_BASE_FEE <= Lowered(fee, b) <= Lowered(fee, a) <= fee && fee - b <= Lowered(fee, b)
  {
  }

  // ---------------------------------------------------------------------------
  // Quotients
  // ---------------------------------------------------------------------------

  lemma QuotientMonotone(a: nat, b: nat, d: nat)
    requires d > 0 && a <= b
    ensures a / d <= b / d
  {
    var qa, qb := a / d, b / d;
    assert a == d * qa + a % d && b == d * qb + b % d;
    if qa > qb {
      MulAtLeast(d, qa - qb);
      assert false;
    }
  }

  lemma MulAtLeast(p: nat, d: nat)
    requires d >= 1
    ensures p * d >= p
  {
    assert p * (d - 1) >= 0;
  }

  lemma MulMonotone(p: nat, a: nat, b: nat)
    requires a <= b
    ensures p * a <= p * b
  {
    assert p * (b - a) >= 0;
  }

  lemma ProductQuotient(fee: nat, d: nat)
    requires d > 0
    ensures fee * d / d == fee
  {
    var q := fee * d / d;
    assert fee * d == d * q + fee * d % d;
    if q > fee {
      MulAtLeast(d, q - fee);
      assert false;
    } else if q < fee {
      MulAtLeast(d, fee - q);
      assert false;
    }
  }

  /** The step grows with the distance, and at the full target it is an eighth of the fee. */
  lemma StepMonotone(fee: nat, a: nat, b: nat, target: nat)
    requires target > 0 && a <= b
    ensures FeeStep(fee, a, target) <= FeeStep(fee, b, target)
    ensures b <= target ==> FeeStep(fee, b, target) <= fee / ELASTICITY_DENOM
  {
    MulMonotone(fee, a, b);
    QuotientMonotone(fee * a, fee * b, target);
    QuotientMonotone(fee * a / target, fee * b / target, ELASTICITY_DENOM);
    if b <= target {
      MulMonotone(fee, b, target);
      QuotientMonotone(fee * b, fee * target, target);
      ProductQuotient(fee, target);
      QuotientMonotone(fee * b / target, fee, ELASTICITY_DENOM);
    }
  }

  // ---------------------------------------------------------------------------
  // One block
  // ---------------------------------------------------------------------------

  lemma AtLeastMinimum(current: nat, gasUsed: nat, gasTarget: nat)
    requires current <= MAX_FEE
    ensures MIN_BASE_FEE <= NextBaseFee(current, gasUsed, gasTarget) <= MAX_FEE
  {
    var fee := Max(current, MIN_BASE_FEE);
    if gasTarget > 0 && gasUsed > gasTarget {
      var delta := Max(FeeStep(fee, gasUsed - gasTarget, gasTarget), 1);
      RaisedBounds(fee, delta, delta);
    } else if gasTarget > 0 && gasUsed < gasTarget {
      var delta := FeeStep(fee, gasTarget - gasUsed, gasTarget);
      LoweredBounds(fee, delta, delta);
    }
  }

  /** More gas used never means a lower fee. */
  lemma MonotoneInGas(current: nat, a: nat, b: nat, target: nat)
    requires a <= b && current <= MAX_FEE
    ensures NextBaseFee(current, a, target) <= NextBaseFee(current, b, target)
  {
    var fee := Max(current, MIN_BASE_FEE);
    if target > 0 {
      if target < a {
        AboveTarget(fee, a, b, target);
      } else if b < target {
        BelowTarget(fee, a, b, target);
      } else {
        AroundTarget(fee, a, b, target);
      }
    }
  }

  lemma AboveTarget(fee: nat, a: nat, b: nat, target: nat)
    requires 0 < target < a <= b && MIN_BASE_FEE <= fee <= MAX_FEE
    ensures Raised(fee, Max(FeeStep(fee, a - target, target), 1))
         <= Raised(fee, Max(FeeStep(fee, b - target, target), 1))
  {
    StepMonotone(fee, a - target, b - target, target);
    RaisedBounds(fee, Max(FeeStep(fee, a - target, target), 1), Max(FeeStep(fee, b - target, target), 1));
  }

  lemma BelowTarget(fee: nat, a: nat, b: nat, target: nat)
    requires 0 < target && a <= b < target && MIN_BASE_FEE <= fee <= MAX_FEE
    ensures Lowered(fee, FeeStep(fee, target - a, target)) <= Lowered(fee, FeeStep(fee, target - b, target))
  {
    StepMonotone(fee, target - b, target - a, target);
    LoweredBounds(fee, FeeStep(fee, target - b, target), FeeStep(fee, target - a, target));
  }

  lemma AroundTarget(fee: nat, a: nat, b: nat, target: nat)
    requires 0 < target && a <= target <= b && MIN_BASE_FEE <= fee <= MAX_FEE
    ensures Lowered(fee, FeeStep(fee, target - a, target)) <= fee
    ensures fee <= Raised(fee, Max(FeeStep(fee, b - target, target), 1))
  {
    var down, up := FeeStep(fee, target - a, target), Max(FeeStep(fee, b - target, target), 1);
    LoweredBounds(fee, down, down);
    RaisedBounds(fee, up, up);
  }

  /** Up to twice the target, the fee moves by at most an eighth, or by one. */
  lemma MovesByAnEighth(current: nat, gasUsed: nat, target: nat)
    requires gasUsed <= 2 * target && current <= MAX_FEE
    ensures var fee := Max(current, MIN_BASE_FEE);
            var next := NextBaseFee(current, gasUsed, target);
            fee - fee / ELASTICITY_DENOM <= next <= fee + Max(fee / ELASTICITY_DENOM, 1)
  {
    var fee := Max(current, MIN_BASE_FEE);
    if gasUsed > target {
      StepMonotone(fee, 0, gasUsed - target, target);
    } else if gasUsed < target {
      StepMonotone(fee, 0, target - gasUsed, target);
    }
  }

  lemma FeeStepIs(fee: nat, distance: nat, target: nat)
    requires target > 0
    ensures var step := FeeStep(fee, distance, target);
            step * (ELASTICITY_DENOM * target) <= fee * distance < (step + 1) * (ELASTICITY_DENOM * target)
  {
    var product := fee * distance;
    var q := product / target;
    assert product == target * q + product % target;
    TwiceDivided(product, target, q, product % target, q / ELASTICITY_DENOM, q % ELASTICITY_DENOM);
  }

  lemma TwiceDivided(product: nat, target: nat, q: nat, r: nat, step: nat, s: nat)
    requires product == target * q + r && r < target && q == 8 * step + s && s < 8
    ensures step * (8 * target) <= product < (step + 1) * (8 * target)
  {
    assert target * q == target * (8 * step) + target * s;
    MulMonotone(target, s, 7);
    assert step * (8 * target) == target * (8 * step);
    assert (step + 1) * (8 * target) == step * (8 * target) + 8 * target;
  }

  /** The fee moves by the largest whole step of which eight times the target fits into the fee times the
      distance from the target: up by at least one when the block was above the target, down when it was
      below, and not at all at the target. */
  lemma ExactStep(current: nat, gasUsed: nat, target: nat) returns (step: nat)
    requires current <= MAX_FEE && target > 0
    ensures var fee := Max(current, MIN_BASE_FEE);
            && step * (ELASTICITY_DENOM * target) <= fee * Distance(gasUsed, target)
                 < (step + 1) * (ELASTICITY_DENOM * target)
            && NextBaseFee(current, gasUsed, target)
               == if gasUsed > target then Min(fee + Max(step, 1), MAX_FEE)
                  else if step < fee then fee - step else MIN_BASE_FEE
  {
    var fee := Max(current, MIN_BASE_FEE);
    step := FeeStep(fee, Distance(gasUsed, target), target);
    FeeStepIs(fee, Distance(gasUsed, target), target);
    if gasUsed == target {
      AtTarget(fee, target);
    }
  }

  lemma AtTarget(fee: nat, target: nat)
    requires target > 0
    ensures FeeStep(fee, 0, target) == 0
  {
    assert fee * 0 == 0;
  }

  // ---------------------------------------------------------------------------
  // Many blocks
  // ---------------------------------------------------------------------------

  datatype BlockGas = BlockGas(used: nat, target: nat)

  /** `None` is an overflow on the way. */
  function FeeAfter(current: nat, blocks: seq<BlockGas>): Option<nat>
    decreases |blocks|
  {
    if blocks == [] then Some(current)
    else
      match CheckedBaseFee(current, blocks[0].used, blocks[0].target)
      case None => None
      case Some(next) => FeeAfter(next, blocks[1..])
  }

  /** The largest and the smallest fee after `n` blocks. */
  function Highest(fee: nat, n: nat): nat
    decreases n
  {
    if n == 0 then fee else Highest(fee + Max(fee / ELASTICITY_DENOM, 1), n - 1)
  }

  function Lowest(fee: nat, n: nat): nat
    decreases n
  {
    if n == 0 then fee else Lowest(fee - fee / ELASTICITY_DENOM, n - 1)
  }

  lemma {:induction false} HighestMonotone(a: nat, b: nat, n: nat)
    requires a <= b
    ensures Highest(a, n) <= Highest(b, n)
    decreases n
  {
    if n > 0 {
      QuotientMonotone(a, b, ELASTICITY_DENOM);
      HighestMonotone(a + Max(a / ELASTICITY_DENOM, 1), b + Max(b / ELASTICITY_DENOM, 1), n - 1);
    }
  }

  lemma {:induction false} LowestMonotone(a: nat, b: nat, n: nat)
    requires a <= b
    ensures Lowest(a, n) <= Lowest(b, n)
    decreases n
  {
    if n > 0 {
      assert a - a / 8 <= b - b / 8;
      LowestMonotone(a - a / ELASTICITY_DENOM, b - b / ELASTICITY_DENOM, n - 1);
    }
  }

  /** Over any number of blocks within twice their target, the fee stays between the two curves, as long
      as nothing overflows. */
  lemma {:induction false} FeeWithinCurves(current: nat, blocks: seq<BlockGas>)
    requires MIN_BASE_FEE <= current <= MAX_FEE && FeeAfter(current, blocks).Some?
    requires forall i :: 0 <= i < |blocks| ==> blocks[i].used <= 2 * blocks[i].target
    ensures Lowest(current, |blocks|) <= FeeAfter(current, blocks).value <= Highest(current, |blocks|)
    ensures MIN_BASE_FEE <= FeeAfter(current, blocks).value <= MAX_FEE
    decreases |blocks|
  {
    if blocks != [] {
      var n := |blocks| - 1;
      var next := NextBaseFee(current, blocks[0].used, blocks[0].target);
      MovesByAnEighth(current, blocks[0].used, blocks[0].target);
      AtLeastMinimum(current, blocks[0].used, blocks[0].target);
      FeeWithinCurves(next, blocks[1..]);
      HighestMonotone(next, current + Max(current / ELASTICITY_DENOM, 1), n);
      LowestMonotone(current - current / ELASTICITY_DENOM, next, n);
    }
  }

  lemma {:induction false} HighestGrows(fee: nat, n: nat)
    ensures fee <= Highest(fee, n)
    decreases n
  {
    if n > 0 {
      HighestGrows(fee + Max(fee / ELASTICITY_DENOM, 1), n - 1);
    }
  }

  lemma FitsBelow(fee: nat, gasUsed: nat, target: nat, top: nat)
    requires MIN_BASE_FEE <= fee <= top && gasUsed <= 2 * target && top * target < U64_LIMIT
    ensures CheckedBaseFee(fee, gasUsed, target).Some?
  {
    MulMonotone(target, fee, top);
    MulMonotone(fee, Distance(gasUsed, target), target);
  }

  /** Nothing overflows as long as a bound of the upper curve times every target fits. */
  lemma {:induction false} CurveFits(current: nat, blocks: seq<BlockGas>, top: nat)
    requires MIN_BASE_FEE <= current <= MAX_FEE && Highest(current, |blocks|) <= top
    requires forall i :: 0 <= i < |blocks| ==> blocks[i].used <= 2 * blocks[i].target
    requires forall i :: 0 <= i < |blocks| ==> top * blocks[i].target < U64_LIMIT
    ensures FeeAfter(current, blocks).Some?
    decreases |blocks|
  {
    if blocks != [] {
      var n, used, target := |blocks| - 1, blocks[0].used, blocks[0].target;
      HighestGrows(current, n + 1);
      FitsBelow(current, used, target, top);
      var next := NextBaseFee(current, used, target);
      MovesByAnEighth(current, used, target);
      AtLeastMinimum(current, used, target);
      HighestMonotone(next, current + Max(current / ELASTICITY_DENOM, 1), n);
      CurveFits(next, blocks[1..], top);
    }
  }

  // ---------------------------------------------------------------------------
  // Effective prices
  // ---------------------------------------------------------------------------

  /** The price paid, what is burned of it and what the proposer gets: as much as both maxima allow, one of
      which is reached. */
  function EffectivePrices(baseFee: nat, maxFee: nat, maxPriority: nat): (r: (nat, nat, nat))
    ensures r.1 == baseFee && r.0 == r.1 + r.2 && r.2 <= maxPriority
    ensures baseFee <= maxFee ==> r.0 <= maxFee
    ensures baseFee <= maxFee ==> r.2 == maxPriority || r.0 == maxFee
    ensures baseFee > maxFee ==> r.2 == 0
  {
    var priority := Min(maxPriority, SaturatingSub(maxFee, baseFee));
    (baseFee + priority, baseFee, priority)
  }
}
