/**
 * The arithmetic of the derived fields of an SFX form, on plain ints: the
 * mandatory sub-total and its half, the mandatory floor, the split of a total
 * between the DN and FV ledgers by a fraction, the over-limit tests of the
 * Components and Modifiers fields, and the final totals.
 */
module Formulas {
  import opened Arith
  import opened Fields

  /** SFXFieldHalfMandatory: half the sub-total, as Java int division. */
  function HalfOf(sum: int): int {
    Quot(sum, 2)
  }

  /** Half of a non-negative sum rounds down; of a negative sum, up. */
  lemma HalfRoundsTowardZero(sum: int)
    ensures 0 <= sum ==> 2 * HalfOf(sum) <= sum < 2 * HalfOf(sum) + 2
    ensures sum < 0 ==> 2 * HalfOf(sum) - 2 < sum <= 2 * HalfOf(sum)
    ensures sum % 2 == 0 ==> 2 * HalfOf(sum) == sum
  {
  }

  /** SFXFieldMandatory: the sub-total less the casting cost, but never below
      the half. */
  function MandatoryOf(sub: int, casting: int, half: int): int {
    var limited := sub - casting;
    if limited < half then half else limited
  }

  /** The mandatory cost is the larger of the two candidates. */
  lemma MandatoryIsLargerCandidate(sub: int, casting: int, half: int)
    ensures MandatoryOf(sub, casting, half) >= half
    ensures MandatoryOf(sub, casting, half) >= sub - casting
    ensures MandatoryOf(sub, casting, half) == half || MandatoryOf(sub, casting, half) == sub - casting
  {
  }

  /** The DN and FV parts of a total as the Components, Modifiers and Total
      fields compute them: FV is the total less the fraction's part, DN the
      rest. */
  function SplitTotal(f: Ratio, total: int): (int, int) {
    var fv := total - Part(f, total);
    (total - fv, fv)
  }

  /** The two parts always add up to the total; for a proportion between 0
      and 1 and a total in the int range each part lies between 0 and the
      total, and the DN part is the proportion of the total rounded to
      nearest. */
  lemma SplitPreservesTotal(f: Ratio, total: int)
    ensures SplitTotal(f, total).0 + SplitTotal(f, total).1 == total
    ensures SplitTotal(f, total).0 == Part(f, total)
    ensures 0 <= f.num <= f.den && 0 <= total <= Int32Max ==>
      && 0 <= SplitTotal(f, total).0 <= total
      && 0 <= SplitTotal(f, total).1 <= total
  {
    if 0 <= f.num <= f.den && 0 <= total <= Int32Max {
      PartSplitsTotal(f, total);
    }
  }

  /** SFXCompositeComponents: the reduction limit is half of the smaller of
      the two parts, each half rounded up. */
  function ComponentsLimit(f: Ratio, total: int): int {
    var (dn, fv) := SplitTotal(f, total);
    Min(Quot(dn + 1, 2), Quot(fv + 1, 2))
  }

  /** The Components field is limited when its cost or its summed reduction
      passes the limit. */
  predicate ComponentsLimited(cost: int, reduction: int, limit: int) {
    cost > limit || reduction > limit
  }

  /** For non-negative parts the limit is the rounded-up half of the smaller
      part, and the flag is clear exactly when both ledgers fit under it. */
  lemma ComponentsLimitIsHalfSmallerPart(f: Ratio, total: int, cost: int, reduction: int)
    requires 0 <= SplitTotal(f, total).0 && 0 <= SplitTotal(f, total).1
    ensures var small := Min(SplitTotal(f, total).0, SplitTotal(f, total).1);
      && 2 * ComponentsLimit(f, total) - 1 <= small <= 2 * ComponentsLimit(f, total)
    ensures !ComponentsLimited(cost, reduction, ComponentsLimit(f, total)) <==>
      Max(cost, reduction) <= ComponentsLimit(f, total)
  {
  }

  /** What SFXFieldModifiers reads from its eleven sources, position by
      position: the mandatory and optional costs, the fraction, the cost and
      reduction of each reducing source, the Others ledgers, and the unreal
      fraction with its cost. */
  datatype ModifierInputs = ModifierInputs(
    mandatory: int, optional: int, fraction: Ratio,
    reductions: seq<(int, int)>,
    unreal: Ratio, unrealCost: int)

  /** The DN and FV reductions: the sources' ledgers summed, plus the unreal
      cost split by the unreal fraction. */
  function Reductions(inputs: ModifierInputs): (int, int) {
    var (dn, fv) := SumPairs(inputs.reductions);
    var (udn, ufv) := SplitTotal(inputs.unreal, inputs.unrealCost);
    (dn + udn, fv + ufv)
  }

  function SumPairs(ps: seq<(int, int)>): (int, int) {
    if |ps| == 0 then (0, 0)
    else
      var (a, b) := SumPairs(ps[..|ps| - 1]);
      (a + ps[|ps| - 1].0, b + ps[|ps| - 1].1)
  }

  /** The Modifiers outcome: the over-limit flag and the two reduction
      ledgers. The limits are half of each part of mandatory plus optional,
      and the ledgers together may not exceed the mandatory cost. */
  function ModifiersOutcome(inputs: ModifierInputs): (bool, int, int) {
    var (limitDN, limitFV) := SplitTotal(inputs.fraction, inputs.mandatory + inputs.optional);
    var (dn, fv) := Reductions(inputs);
    var limited := dn > Quot(limitDN, 2) || fv > Quot(limitFV, 2) || dn + fv > inputs.mandatory;
    (limited, dn, fv)
  }

  /** The unreal cost is divided between the two ledgers without loss, and
      the flag is clear exactly when each ledger fits under half of its part
      and both together fit under the mandatory cost. */
  lemma ModifiersLimitedExactly(inputs: ModifierInputs)
    requires var (limitDN, limitFV) := SplitTotal(inputs.fraction, inputs.mandatory + inputs.optional);
      0 <= limitDN && 0 <= limitFV
    ensures var (_, dn, fv) := ModifiersOutcome(inputs);
      dn + fv == SumPairs(inputs.reductions).0 + SumPairs(inputs.reductions).1 + inputs.unrealCost
    ensures var (limited, dn, fv) := ModifiersOutcome(inputs);
      var (limitDN, limitFV) := SplitTotal(inputs.fraction, inputs.mandatory + inputs.optional);
      !limited <==> 2 * dn <= limitDN && 2 * fv <= limitFV && dn + fv <= inputs.mandatory
  {
    SplitPreservesTotal(inputs.unreal, inputs.unrealCost);
  }

  /** SFXFieldTotal: each part of mandatory plus optional less the matching
      Modifiers ledger, never below zero. */
  function TotalLedgers(mandatory: int, optional: int, f: Ratio, reduceDN: int, reduceFV: int): (int, int) {
    var (dn, fv) := SplitTotal(f, mandatory + optional);
    (Max(0, dn - reduceDN), Max(0, fv - reduceFV))
  }

  /** The final ledgers are never negative, a larger reduction never raises
      its ledger, and without reductions a non-negative total is split
      without loss. */
  lemma TotalSplitsAndClamps(mandatory: int, optional: int, f: Ratio, reduceDN: int, reduceFV: int)
    ensures var (dn, fv) := TotalLedgers(mandatory, optional, f, reduceDN, reduceFV);
      0 <= dn && 0 <= fv
    ensures forall more :: more >= reduceDN ==>
      TotalLedgers(mandatory, optional, f, more, reduceFV).0 <= TotalLedgers(mandatory, optional, f, reduceDN, reduceFV).0
    ensures forall more :: more >= reduceFV ==>
      TotalLedgers(mandatory, optional, f, reduceDN, more).1 <= TotalLedgers(mandatory, optional, f, reduceDN, reduceFV).1
    ensures 0 <= f.num <= f.den && 0 <= mandatory + optional <= Int32Max ==>
      TotalLedgers(mandatory, optional, f, 0, 0).0 + TotalLedgers(mandatory, optional, f, 0, 0).1 == mandatory + optional
  {
    SplitPreservesTotal(f, mandatory + optional);
  }
}
