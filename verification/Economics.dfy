/**
 Economic arithmetic in basis points: rounded score adjustments, effects of a verified snapshot, revenue shares
 and the expenditure an entity needs to survive. Integer widths and casts are written out.
 */
module Economics {
  import opened Integers
  import opened Wrappers

  const MAX_BPS: nat := 10_000

  type U16 = n: nat | n <= 0xFFFF
  type U64 = n: nat | n <= 0xFFFF_FFFF_FFFF_FFFF

  // ---------------------------------------------------------------- division facts

  lemma RoundingIsMonotone(a: nat, b: nat)
    requires a <= b
    ensures a / 10_000 <= b / 10_000
  {
  }

  lemma ProductMonotone(a: nat, b: nat, c: nat, d: nat)
    requires a <= b && c <= d
    ensures a * c <= b * d
  {
    assert a * c <= b * c;
    assert b * c <= b * d;
  }

  // ---------------------------------------------------------------- score adjustment

  /** A cast to sixteen bits. */
  function Low16(n: nat): (r: U16)
    ensures n <= U16_MAX ==> r == n
  {
    n % (U16_MAX + 1)
  }

  /** Half-up rounding of a product of basis points, cast back to sixteen bits. */
  function MultiplyBasisPoints(left: U16, right: U16): (r: U16)
    ensures left <= MAX_BPS && right <= MAX_BPS ==> r <= left && r <= right
    ensures left <= MAX_BPS && right == MAX_BPS ==> r == left
  {
    MultiplicationBound(left, right);
    Low16((left * right + MAX_BPS / 2) / MAX_BPS)
  }

  lemma MultiplicationBound(left: nat, right: nat)
    requires left <= U16_MAX && right <= U16_MAX
    ensures var rounded := (left * right + MAX_BPS / 2) / MAX_BPS;
      && (left <= MAX_BPS && right <= MAX_BPS ==> rounded <= left && rounded <= right)
      && (left <= MAX_BPS && right == MAX_BPS ==> rounded == left)
  {
    if left <= MAX_BPS && right <= MAX_BPS {
      ProductMonotone(left, left, right, MAX_BPS);
      ProductMonotone(left, MAX_BPS, right, right);
    }
  }

  /** Raises a score towards full credit. */
  function ApplyScoreAdjustment(base: U16, adjustment: U16): (r: Option<U16>)
    ensures r.Some? <==> base <= MAX_BPS && adjustment <= MAX_BPS
    ensures r.Some? ==> base <= r.value <= MAX_BPS
    ensures r.Some? && adjustment == MAX_BPS ==> r.value == MAX_BPS
    ensures r.Some? && adjustment == 0 ==> r.value == base
  {
    if base > MAX_BPS || adjustment > MAX_BPS then None
    else
      var raised := base + MultiplyBasisPoints(MAX_BPS - base, adjustment);
      Some(if raised > U16_MAX then U16_MAX else raised)
  }

  lemma RoundedIs(left: nat, right: nat)
    requires left <= MAX_BPS && right <= MAX_BPS
    ensures MultiplyBasisPoints(left, right) == (left * right + 5_000) / 10_000
  {
    MultiplicationBound(left, right);
  }

  /** The adjustment closes its share of the distance to full credit, to the nearest unit. */
  lemma AdjustmentClosesItsShare(base: U16, adjustment: U16)
    requires base <= MAX_BPS && adjustment <= MAX_BPS
    ensures ApplyScoreAdjustment(base, adjustment).Some?
    ensures Rounds(ApplyScoreAdjustment(base, adjustment).value - base, MAX_BPS - base, adjustment)
  {
    MultiplicationRounds(MAX_BPS - base, adjustment);
  }

  /** Monotone in the base score although the headroom shrinks and is rounded, and in the adjustment. */
  lemma AdjustmentIsMonotone(base: U16, base': U16, adjustment: U16, adjustment': U16)
    requires base <= base' <= MAX_BPS && adjustment <= adjustment' <= MAX_BPS
    ensures ApplyScoreAdjustment(base, adjustment).value <= ApplyScoreAdjustment(base', adjustment').value
  {
    hide MultiplyBasisPoints;
    var h, h', d := MAX_BPS - base, MAX_BPS - base', base' - base;
    RoundedIs(h, adjustment);
    RoundedIs(h', adjustment);
    RoundedIs(h', adjustment');
    ProductMonotone(h', h', adjustment, adjustment');
    RoundingIsMonotone(h' * adjustment + 5_000, h' * adjustment' + 5_000);
    assert h * adjustment == h' * adjustment + d * adjustment;
    ProductMonotone(d, d, adjustment, MAX_BPS);
    RoundingIsMonotone(h * adjustment + 5_000, h' * adjustment + 5_000 + d * 10_000);
    ShiftedQuotient(h' * adjustment + 5_000, d);
  }

  lemma ShiftedQuotient(a: nat, d: nat)
    ensures (a + d * 10_000) / 10_000 == a / 10_000 + d
  {
  }

  // ---------------------------------------------------------------- revenue shares

  datatype Shares = Shares(parent: U16, operator: U16, recruitment: U16)

  datatype Distribution = Distribution(gross: U64, parent: U64, operator: U64, recruitment: U64, childRetained: U64)

  predicate ValidShares(s: Shares) { s.parent + s.operator + s.recruitment <= MAX_BPS }

  function Share(gross: U64, bps: U16): (r: U64) {
    var share := gross * bps / MAX_BPS;
    if share > U64_MAX then U64_MAX else share
  }

  function SaturatingSub(a: U64, b: U64): U64 { if a >= b then a - b else 0 }

  predicate Conserves(d: Distribution) { d.parent + d.operator + d.recruitment + d.childRetained == d.gross }

  function Distribute(s: Shares, gross: U64): Option<Distribution> {
    if !ValidShares(s) then None
    else
      var p, o, r := Share(gross, s.parent), Share(gross, s.operator), Share(gross, s.recruitment);
      var d := Distribution(gross, p, o, r, SaturatingSub(SaturatingSub(SaturatingSub(gross, p), o), r));
      if Conserves(d) then Some(d) else None
  }

  /** A policy is accepted exactly while its shares leave something, or nothing, of the whole. */
  lemma SharesAreChecked(s: Shares, gross: U64)
    ensures Distribute(s, gross).Some? <==> s.parent + s.operator + s.recruitment <= 10_000
  {
    if ValidShares(s) {
      RevenueIsConserved(s, gross);
    }
  }

  lemma ShareIsExact(gross: U64, bps: U16)
    requires bps <= MAX_BPS
    ensures Share(gross, bps) * MAX_BPS <= gross * bps < (Share(gross, bps) + 1) * MAX_BPS
  {
    ProductMonotone(gross, gross, bps, MAX_BPS);
    var share := gross * bps / MAX_BPS;
    assert share * MAX_BPS <= gross * bps < (share + 1) * MAX_BPS;
  }

  /** Every valid policy distributes every revenue: nothing is lost, nothing is made, and no share exceeds its rate. */
  lemma RevenueIsConserved(s: Shares, gross: U64)
    requires ValidShares(s)
    ensures Distribute(s, gross).Some?
    ensures var d := Distribute(s, gross).value;
      && d.gross == gross && d.parent + d.operator + d.recruitment + d.childRetained == gross
      && d.parent * MAX_BPS <= gross * s.parent < (d.parent + 1) * MAX_BPS
      && d.operator * MAX_BPS <= gross * s.operator < (d.operator + 1) * MAX_BPS
      && d.recruitment * MAX_BPS <= gross * s.recruitment < (d.recruitment + 1) * MAX_BPS
  {
    hide Share;
    ShareIsExact(gross, s.parent);
    ShareIsExact(gross, s.operator);
    ShareIsExact(gross, s.recruitment);
    var p, o, r := Share(gross, s.parent), Share(gross, s.operator), Share(gross, s.recruitment);
    assert gross * (s.parent + s.operator + s.recruitment)
           == gross * s.parent + gross * s.operator + gross * s.recruitment;
    ProductMonotone(gross, gross, s.parent + s.operator + s.recruitment, MAX_BPS);
    assert (p + o + r) * MAX_BPS <= gross * MAX_BPS;
  }

  // ---------------------------------------------------------------- effects

  datatype Snapshot = Snapshot(balance: U16, stake: U16, reward: U16, trustworthy: bool)

  datatype Policy = Policy(
    schemaVersion: nat,
    wealth: U16,
    influence: U16,
    growth: U16,
    engagement: U16,
    starvationRelief: U16,
    reliefPerExpenditure: U16,
    maxEmergencyExpenditure: U16,
    propagationMinimumStake: U16)

  datatype Effects = Effects(
    wealth: U16,
    influence: U16,
    growth: U16,
    engagement: U16,
    starvationRelief: U16,
    propagationEligible: bool)

  predicate ValidSnapshot(s: Snapshot) { s.balance <= MAX_BPS && s.stake <= MAX_BPS && s.reward <= MAX_BPS }

  predicate ValidPolicy(p: Policy) {
    && p.schemaVersion == 1
    && p.wealth <= MAX_BPS && p.influence <= MAX_BPS && p.growth <= MAX_BPS && p.engagement <= MAX_BPS
    && p.starvationRelief <= MAX_BPS && 0 < p.reliefPerExpenditure <= MAX_BPS
    && p.maxEmergencyExpenditure <= MAX_BPS && p.propagationMinimumStake <= MAX_BPS
  }

  predicate ValidEffects(e: Effects) {
    && e.wealth <= MAX_BPS && e.influence <= MAX_BPS && e.growth <= MAX_BPS && e.engagement <= MAX_BPS
    && e.starvationRelief <= MAX_BPS
  }

  function EffectsOf(p: Policy, s: Snapshot): (r: Option<Effects>)
    ensures r.Some? <==> ValidPolicy(p) && ValidSnapshot(s) && s.trustworthy
    ensures r.Some? ==> ValidEffects(r.value)
  {
    if !ValidPolicy(p) || !ValidSnapshot(s) || !s.trustworthy then None
    else
      Some(Effects(
        MultiplyBasisPoints(s.balance, p.wealth), MultiplyBasisPoints(s.stake, p.influence),
        MultiplyBasisPoints(s.reward, p.growth), MultiplyBasisPoints(s.balance, p.engagement),
        MultiplyBasisPoints(s.balance, p.starvationRelief), s.stake >= p.propagationMinimumStake))
  }

  predicate IsBasisPoints(n: nat) { n <= 10_000 }

  /** Every rate, balance and score is a number of basis points, and relief is never free. */
  lemma EffectsAreChecked(p: Policy, s: Snapshot)
    ensures EffectsOf(p, s).Some? <==>
            && s.trustworthy && p.schemaVersion == 1 && p.reliefPerExpenditure > 0
            && IsBasisPoints(s.balance) && IsBasisPoints(s.stake) && IsBasisPoints(s.reward)
            && IsBasisPoints(p.wealth) && IsBasisPoints(p.influence) && IsBasisPoints(p.growth)
            && IsBasisPoints(p.engagement) && IsBasisPoints(p.starvationRelief)
            && IsBasisPoints(p.reliefPerExpenditure) && IsBasisPoints(p.maxEmergencyExpenditure)
            && IsBasisPoints(p.propagationMinimumStake)
  {
    hide MultiplyBasisPoints;
  }

  /** A product of basis points, to the nearest unit, halves upwards. */
  predicate Rounds(r: nat, left: nat, right: nat) {
    r * MAX_BPS <= left * right + MAX_BPS / 2 < (r + 1) * MAX_BPS
  }

  lemma MultiplicationRounds(left: U16, right: U16)
    requires left <= MAX_BPS && right <= MAX_BPS
    ensures Rounds(MultiplyBasisPoints(left, right), left, right)
  {
    RoundedIs(left, right);
  }

  /** Wealth, engagement and relief follow the balance, influence the stake, growth the reward; so does eligibility. */
  lemma EffectsFollowTheirSources(p: Policy, s: Snapshot)
    requires EffectsOf(p, s).Some?
    ensures var e := EffectsOf(p, s).value;
      && Rounds(e.wealth, s.balance, p.wealth) && Rounds(e.engagement, s.balance, p.engagement)
      && Rounds(e.starvationRelief, s.balance, p.starvationRelief)
      && Rounds(e.influence, s.stake, p.influence) && Rounds(e.growth, s.reward, p.growth)
      && (e.propagationEligible <==> p.propagationMinimumStake <= s.stake)
  {
    hide MultiplyBasisPoints, Rounds;
    MultiplicationRounds(s.balance, p.wealth);
    MultiplicationRounds(s.balance, p.engagement);
    MultiplicationRounds(s.balance, p.starvationRelief);
    MultiplicationRounds(s.stake, p.influence);
    MultiplicationRounds(s.reward, p.growth);
  }

  // ---------------------------------------------------------------- survival

  datatype Record = Record(snapshot: Snapshot, policy: Policy, effects: Effects)

  datatype Requirement = Requirement(
    threshold: U16,
    shortfall: U16,
    expenditure: U16,
    relief: U16,
    fullyFunded: bool)

  predicate ValidRecord(r: Record) {
    ValidSnapshot(r.snapshot) && ValidPolicy(r.policy) && ValidEffects(r.effects)
    && EffectsOf(r.policy, r.snapshot) == Some(r.effects)
  }

  function DivCeil(a: nat, d: nat): (r: nat)
    requires d > 0
    ensures r * d >= a && (r > 0 ==> (r - 1) * d < a)
  {
    QuotientBounds(a, d);
    if a % d == 0 then a / d else a / d + 1
  }

  lemma QuotientBounds(a: nat, d: nat)
    requires d > 0
    ensures (a / d) * d <= a < (a / d + 1) * d
    ensures a % d == 0 ==> (a / d) * d == a && (a / d > 0 ==> (a / d - 1) * d < a)
    ensures a % d != 0 ==> (a / d) * d < a
  {
    var q, m := a / d, a % d;
    assert a == q * d + m;
    assert (q + 1) * d == q * d + d && (q - 1) * d == q * d - d;
  }

  /** The expenditure for a shortfall, before it is limited by what is available. */
  function NeededExpenditure(shortfall: nat, rate: nat): nat
    requires rate > 0
  {
    Min(DivCeil(shortfall * MAX_BPS, rate), MAX_BPS)
  }

  /** `None` is an error, `Some(None)` means there is nothing to survive. */
  function EmergencyRequirement(r: Record, score: U16, baseThreshold: U16): Option<Option<Requirement>> {
    if !ValidRecord(r) || score > MAX_BPS || baseThreshold > MAX_BPS then None
    else
      var relief := r.effects.starvationRelief;
      var threshold := if baseThreshold >= relief then baseThreshold - relief else 0;
      if score >= threshold then Some(None)
      else
        var shortfall, rate := threshold - score, r.policy.reliefPerExpenditure;
        var needed := NeededExpenditure(shortfall, rate);
        var available := Min(r.snapshot.balance, r.policy.maxEmergencyExpenditure);
        var spent := Min(needed, available);
        Some(Some(Requirement(threshold, shortfall, spent, Min(MultiplyBasisPoints(spent, rate), shortfall),
                              needed <= available)))
  }

  /** Only the true effects of a policy and a snapshot lead to a requirement. */
  lemma RequirementsAreChecked(r: Record, score: U16, baseThreshold: U16)
    ensures EmergencyRequirement(r, score, baseThreshold).Some? <==>
            && EffectsOf(r.policy, r.snapshot) == Some(r.effects)
            && IsBasisPoints(score) && IsBasisPoints(baseThreshold)
  {
    hide MultiplyBasisPoints, NeededExpenditure;
  }

  /**
   What a requirement promises. Fully funded, the expected relief closes the shortfall exactly when the shortfall
   is at most the relief rate, the most that full expenditure can buy; the expenditure is then the least amount
   whose exact relief reaches it. Otherwise a "fully funded" requirement falls short.
   */
  lemma SurvivalIsExact(r: Record, score: U16, baseThreshold: U16)
    requires EmergencyRequirement(r, score, baseThreshold).Some?
    requires EmergencyRequirement(r, score, baseThreshold).value.Some?
    requires EmergencyRequirement(r, score, baseThreshold).value.value.fullyFunded
    ensures var q := EmergencyRequirement(r, score, baseThreshold).value.value;
      var rate := r.policy.reliefPerExpenditure;
      && (q.relief == q.shortfall <==> q.shortfall <= rate)
      && (q.shortfall <= rate ==> q.expenditure * rate >= q.shortfall * MAX_BPS)
      && (q.shortfall <= rate ==> forall e: nat :: e * rate >= q.shortfall * MAX_BPS ==> q.expenditure <= e)
      && (q.shortfall > rate ==> q.expenditure == MAX_BPS && q.relief == rate)
      && q.expenditure <= r.snapshot.balance && q.expenditure <= r.policy.maxEmergencyExpenditure
  {
    hide EffectsOf, ValidPolicy, MultiplyBasisPoints;
    var q := EmergencyRequirement(r, score, baseThreshold).value.value;
    var rate := r.policy.reliefPerExpenditure;
    RateIsValid(r);
    NeededIsLeast(q.shortfall, rate);
    ReliefOfNeeded(q.shortfall, rate);
  }

  lemma RateIsValid(r: Record)
    requires ValidRecord(r)
    ensures 0 < r.policy.reliefPerExpenditure <= MAX_BPS
  {
  }

  lemma NeededIsLeast(shortfall: nat, rate: nat)
    requires 0 < rate <= MAX_BPS && shortfall <= MAX_BPS
    ensures var needed := NeededExpenditure(shortfall, rate);
      && needed <= MAX_BPS
      && (shortfall <= rate ==> needed * rate >= shortfall * MAX_BPS)
      && (shortfall <= rate ==> forall e: nat :: e * rate >= shortfall * MAX_BPS ==> needed <= e)
      && (shortfall > rate ==> needed == MAX_BPS)
  {
    var exact := DivCeil(shortfall * MAX_BPS, rate);
    if shortfall <= rate {
      assert MAX_BPS * rate >= shortfall * MAX_BPS;
      LeastFactor(exact, MAX_BPS, rate, shortfall * MAX_BPS);
      forall e: nat | e * rate >= shortfall * MAX_BPS
        ensures exact <= e
      {
        LeastFactor(exact, e, rate, shortfall * MAX_BPS);
      }
    } else {
      assert exact * rate >= shortfall * MAX_BPS > MAX_BPS * rate;
      if exact <= MAX_BPS {
        ProductMonotone(exact, MAX_BPS, rate, rate);
      }
    }
  }

  lemma LeastFactor(r: nat, e: nat, d: nat, a: nat)
    requires d > 0 && (r > 0 ==> (r - 1) * d < a) && e * d >= a
    ensures r <= e
  {
    if e + 1 <= r {
      ProductMonotone(e, r - 1, d, d);
    }
  }

  lemma ReliefOfNeeded(shortfall: nat, rate: nat)
    requires 0 < rate <= MAX_BPS && 0 < shortfall <= MAX_BPS
    ensures var needed := NeededExpenditure(shortfall, rate);
      && needed <= MAX_BPS
      && (shortfall <= rate ==> MultiplyBasisPoints(needed, rate) >= shortfall)
      && (shortfall > rate ==> MultiplyBasisPoints(needed, rate) == rate)
  {
    NeededIsLeast(shortfall, rate);
    var needed := NeededExpenditure(shortfall, rate);
    RoundedIs(needed, rate);
    if shortfall <= rate {
      RoundingIsMonotone(shortfall * MAX_BPS, needed * rate + 5_000);
    }
  }

  /** How far the score stays below the relieved threshold. */
  function Shortfall(r: Record, score: U16, baseThreshold: U16): nat {
    var missing := baseThreshold - r.effects.starvationRelief - score;
    if missing > 0 then missing else 0
  }

  /**
   Exactly when a requirement is marked fully funded although its relief falls short: the shortfall exceeds the relief
   rate, and the whole balance may be spent.
   */
  lemma FallsShortExactly(r: Record, score: U16, baseThreshold: U16)
    requires ValidRecord(r) && score <= MAX_BPS && baseThreshold <= MAX_BPS
    ensures var missing, q := Shortfall(r, score, baseThreshold), EmergencyRequirement(r, score, baseThreshold);
      && q.Some? && (q.value.None? <==> missing == 0)
      && (q.value.Some? ==> q.value.value.shortfall == missing)
      && (q.value.Some? && q.value.value.fullyFunded && q.value.value.relief < missing
          <==> missing > r.policy.reliefPerExpenditure
               && r.snapshot.balance == MAX_BPS && r.policy.maxEmergencyExpenditure == MAX_BPS)
  {
    hide EffectsOf, MultiplyBasisPoints, NeededExpenditure;
    var missing, q := Shortfall(r, score, baseThreshold), EmergencyRequirement(r, score, baseThreshold);
    RateIsValid(r);
    if q.value.Some? {
      NeededIsLeast(missing, r.policy.reliefPerExpenditure);
      if q.value.value.fullyFunded {
        SurvivalIsExact(r, score, baseThreshold);
      }
    }
  }

  /** A requirement that costs everything, is fully funded, and leaves a sixth of the shortfall open. */
  lemma FundedButShort()
    ensures var p := Policy(1, 0, 0, 0, 0, 0, 5_000, 10_000, 0); var s := Snapshot(10_000, 0, 0, true);
      && EffectsOf(p, s).Some?
      && EmergencyRequirement(Record(s, p, EffectsOf(p, s).value), 0, 6_000)
         == Some(Some(Requirement(6_000, 6_000, 10_000, 5_000, true)))
  {
    var needed := DivCeil(6_000 * 10_000, 5_000);
    LeastFactor(needed, 12_000, 5_000, 6_000 * 10_000);
  }

  /** Without full funding the available amount is spent and the relief never exceeds the shortfall. */
  lemma UnfundedSpendsWhatThereIs(r: Record, score: U16, baseThreshold: U16)
    requires EmergencyRequirement(r, score, baseThreshold).Some?
    requires EmergencyRequirement(r, score, baseThreshold).value.Some?
    requires !EmergencyRequirement(r, score, baseThreshold).value.value.fullyFunded
    ensures var q := EmergencyRequirement(r, score, baseThreshold).value.value;
      && q.expenditure == Min(r.snapshot.balance, r.policy.maxEmergencyExpenditure)
      && q.expenditure < NeededExpenditure(q.shortfall, r.policy.reliefPerExpenditure) && q.relief <= q.shortfall
      && score + q.shortfall == q.threshold
  {
  }
}
