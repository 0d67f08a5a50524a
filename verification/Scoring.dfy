/** The demand score of a metro and the gated composite opportunity score. */
module Scoring {
  import opened Containers
  import opened Normalization

  // ----- Demand ----------------------------------------------------------------------------

  const MEDIAN_LOCAL_SERVICE_CPC := 5.0

  /** The demand signals of one metro; a missing signal is zero. */
  datatype Signals = Signals(volume: real, avgCpc: real, breadth: real, transactional: real)

  function CpcMultiplier(avgCpc: real): real {
    if avgCpc / MEDIAN_LOCAL_SERVICE_CPC <= 2.0 then avgCpc / MEDIAN_LOCAL_SERVICE_CPC else 2.0
  }

  function Blend(share: real, factor: real, bonus: real): real {
    share * factor + bonus
  }

  /** The part of the raw score that does not depend on volume. */
  function Bonus(signals: Signals): real {
    signals.breadth * 15.0 * 0.20 + signals.transactional * 10.0 * 0.20
  }

  /** The demand score of a metro whose volume ranks at the given percentile. */
  function DemandAt(volumePercentile: real, signals: Signals): real {
    Percentage(Blend(volumePercentile * 0.60, CpcMultiplier(signals.avgCpc), Bonus(signals)))
  }

  function DemandScore(signals: Signals, cohort: seq<real>): real {
    DemandAt(PercentileRank(signals.volume, cohort), signals)
  }

  /** The score in full: the percentile counts six tenths, scaled by a fifth of the click price but at
      most doubled; breadth counts three and transactional share two; and the sum is kept in [0, 100]. */
  lemma DemandMeaning(signals: Signals, cohort: seq<real>)
    ensures var factor := if signals.avgCpc >= 10.0 then 2.0 else signals.avgCpc / 5.0;
            var raw := PercentileRank(signals.volume, cohort) * 0.6 * factor
                       + 3.0 * signals.breadth + 2.0 * signals.transactional;
            DemandScore(signals, cohort) == if raw < 0.0 then 0.0 else if raw > 100.0 then 100.0 else raw
  {
    hide PercentileRank;
    assert CpcMultiplier(signals.avgCpc) == if signals.avgCpc >= 10.0 then 2.0 else signals.avgCpc / 5.0;
    assert Bonus(signals) == 3.0 * signals.breadth + 2.0 * signals.transactional;
  }

  lemma MultiplierSign(avgCpc: real)
    ensures avgCpc >= 0.0 ==> CpcMultiplier(avgCpc) >= 0.0
    ensures avgCpc <= 0.0 ==> CpcMultiplier(avgCpc) <= 0.0
  {
  }

  lemma BlendMonotone(x: real, y: real, factor: real, bonus: real)
    requires x <= y
    ensures factor >= 0.0 ==> Blend(x, factor, bonus) <= Blend(y, factor, bonus)
    ensures factor <= 0.0 ==> Blend(x, factor, bonus) >= Blend(y, factor, bonus)
  {
    FactorMonotone(x, y, factor);
  }

  lemma PercentageMonotone(x: real, y: real)
    ensures x <= y ==> Percentage(x) <= Percentage(y)
  {
  }

  lemma DemandFollowsPercentile(p: real, q: real, signals: Signals)
    requires p <= q
    ensures signals.avgCpc >= 0.0 ==> DemandAt(p, signals) <= DemandAt(q, signals)
    ensures signals.avgCpc <= 0.0 ==> DemandAt(p, signals) >= DemandAt(q, signals)
  {
    MultiplierSign(signals.avgCpc);
    var x, y, factor, bonus := p * 0.60, q * 0.60, CpcMultiplier(signals.avgCpc), Bonus(signals);
    hide CpcMultiplier, Bonus;
    BlendMonotone(x, y, factor, bonus);
    hide Blend;
    PercentageMonotone(Blend(x, factor, bonus), Blend(y, factor, bonus));
    PercentageMonotone(Blend(y, factor, bonus), Blend(x, factor, bonus));
  }

  /** More volume cannot hurt: clicks have no negative price, or the rest of the raw score keeps
      the score at zero, or at a hundred, whatever the volume. */
  predicate VolumeNeverHurts(signals: Signals) {
    signals.avgCpc >= 0.0 || Bonus(signals) <= 0.0 || Bonus(signals) + 12.0 * signals.avgCpc >= 100.0
  }

  /** With a negative price the raw score falls from the bonus by 0.12 of the price per percentile. */
  function RawAt(p: real, avgCpc: real, bonus: real): real {
    bonus + 0.12 * avgCpc * p
  }

  lemma NegativeBlend(p: real, signals: Signals)
    requires signals.avgCpc < 0.0
    ensures DemandAt(p, signals) == Percentage(RawAt(p, signals.avgCpc, Bonus(signals)))
  {
    hide Bonus;
    assert CpcMultiplier(signals.avgCpc) == signals.avgCpc * 0.2;
    assert p * 0.60 * (signals.avgCpc * 0.2) == 0.12 * signals.avgCpc * p;
  }

  lemma RawRange(p: real, avgCpc: real, bonus: real)
    requires avgCpc <= 0.0 && 0.0 <= p <= 100.0
    ensures bonus + 12.0 * avgCpc <= RawAt(p, avgCpc, bonus) <= bonus
    ensures p == 0.0 ==> RawAt(p, avgCpc, bonus) == bonus
    ensures p == 100.0 ==> RawAt(p, avgCpc, bonus) == bonus + 12.0 * avgCpc
  {
    var slope := 0.12 * avgCpc;
    FactorMonotone(0.0, p, slope);
    FactorMonotone(p, 100.0, slope);
  }

  lemma StuckDemand(p: real, signals: Signals)
    requires signals.avgCpc < 0.0 && VolumeNeverHurts(signals) && 0.0 <= p <= 100.0
    ensures DemandAt(p, signals) == if Bonus(signals) <= 0.0 then 0.0 else 100.0
  {
    hide Bonus, DemandAt, RawAt;
    NegativeBlend(p, signals);
    RawRange(p, signals.avgCpc, Bonus(signals));
  }

  lemma PercentileNeverHurts(p: real, q: real, signals: Signals)
    requires 0.0 <= p <= q <= 100.0 && VolumeNeverHurts(signals)
    ensures DemandAt(p, signals) <= DemandAt(q, signals)
  {
    hide DemandAt, Bonus;
    if signals.avgCpc >= 0.0 {
      DemandFollowsPercentile(p, q, signals);
    } else {
      StuckDemand(p, signals);
      StuckDemand(q, signals);
    }
  }

  /** The volume of a metro is not part of what decides whether volume can hurt. */
  lemma SameBonus(p: real, signals: Signals, volume: real)
    ensures DemandAt(p, signals) == DemandAt(p, signals.(volume := volume))
    ensures VolumeNeverHurts(signals) == VolumeNeverHurts(signals.(volume := volume))
  {
  }

  /** In one cohort more volume never lowers demand when volume cannot hurt. */
  lemma DemandFollowsVolume(worse: Signals, better: Signals, cohort: seq<real>)
    requires better == worse.(volume := better.volume) && worse.volume <= better.volume && VolumeNeverHurts(worse)
    ensures DemandScore(worse, cohort) <= DemandScore(better, cohort)
  {
    hide PercentileRank, DemandAt, VolumeNeverHurts;
    PercentileMonotone(worse.volume, better.volume, cohort);
    PercentileNeverHurts(PercentileRank(worse.volume, cohort), PercentileRank(better.volume, cohort), worse);
    SameBonus(PercentileRank(better.volume, cohort), worse, better.volume);
  }

  /** A metro that gains volume, in its own row and in the cohort alike, never loses demand. */
  lemma DemandFollowsGrowth(signals: Signals, cohort: seq<real>, i: nat, raised: real)
    requires i < |cohort| && cohort[i] == signals.volume <= raised && VolumeNeverHurts(signals)
    ensures DemandScore(signals, cohort) <= DemandScore(signals.(volume := raised), cohort[i := raised])
  {
    hide PercentileRank, DemandAt, VolumeNeverHurts;
    RaisingOneMember(cohort, i, raised, raised);
    PercentileMonotone(signals.volume, signals.volume, cohort);
    PercentileMonotone(raised, raised, cohort[i := raised]);
    PercentileNeverHurts(PercentileRank(signals.volume, cohort), PercentileRank(raised, cohort[i := raised]), signals);
    SameBonus(PercentileRank(raised, cohort[i := raised]), signals, raised);
  }

  lemma TwoMetros()
    ensures PercentileRank(0.0, [0.0, 1.0]) == 0.0 && PercentileRank(1.0, [0.0, 1.0]) == 100.0
  {
    hide PercentileRank;
    var cohort := [0.0, 1.0];
    assert Front(cohort) == [0.0];
    PercentileCounts(0.0, cohort);
    PercentileCounts(1.0, cohort);
    assert CountAtMost(cohort, 0.0) == 1 && CountAtMost(cohort, 1.0) == 2;
    assert ShareBelow(1, 2) == 0.0 && ShareBelow(2, 2) == 100.0;
  }

  lemma SameBonusValue(signals: Signals, volume: real)
    ensures Bonus(signals.(volume := volume)) == Bonus(signals)
  {
  }

  /** Whenever volume can hurt, it does so in a cohort of two. */
  lemma VolumeHurts(signals: Signals)
    requires !VolumeNeverHurts(signals)
    ensures DemandScore(signals.(volume := 0.0), [0.0, 1.0]) > DemandScore(signals.(volume := 1.0), [0.0, 1.0])
  {
    hide PercentileRank, Bonus;
    TwoMetros();
    var low, high := signals.(volume := 0.0), signals.(volume := 1.0);
    assert Bonus(low) == Bonus(signals) == Bonus(high) by {
      SameBonusValue(signals, 0.0);
      SameBonusValue(signals, 1.0);
    }
    hide DemandAt, RawAt;
    NegativeBlend(0.0, low);
    NegativeBlend(100.0, high);
    RawRange(0.0, signals.avgCpc, Bonus(signals));
    RawRange(100.0, signals.avgCpc, Bonus(signals));
  }

  /** A breadth of ten and a price of minus five: the metro with volume scores 0, the one without 30. */
  lemma NegativePriceInverts() returns (worse: Signals, cohort: seq<real>)
    ensures DemandScore(worse, cohort) > DemandScore(worse.(volume := worse.volume + 1.0), cohort)
  {
    hide DemandScore;
    worse, cohort := Signals(0.0, -5.0, 10.0, 0.0), [0.0, 1.0];
    VolumeHurts(worse);
    assert worse.(volume := 0.0) == worse;
  }

  /** More volume never lowers demand, in any cohort, exactly when volume cannot hurt. */
  lemma VolumeNeverHurtsIff(signals: Signals)
    ensures VolumeNeverHurts(signals) <==>
      forall u: real, v: real, cohort: seq<real> :: u <= v ==>
        DemandScore(signals.(volume := u), cohort) <= DemandScore(signals.(volume := v), cohort)
  {
    hide DemandScore, VolumeNeverHurts;
    if VolumeNeverHurts(signals) {
      forall u: real, v: real, cohort: seq<real> | u <= v
        ensures DemandScore(signals.(volume := u), cohort) <= DemandScore(signals.(volume := v), cohort)
      {
        SameBonus(0.0, signals, u);
        DemandFollowsVolume(signals.(volume := u), signals.(volume := v), cohort);
      }
    } else {
      VolumeHurts(signals);
    }
  }

  // ----- Opportunity -----------------------------------------------------------------------

  const THRESHOLD_GATE_HARD_MIN_COMPONENT := 5.0
  const THRESHOLD_GATE_HARD_CAP := 20.0
  const THRESHOLD_GATE_SOFT_MIN_COMPONENT := 15.0
  const THRESHOLD_GATE_SOFT_CAP := 40.0
  const AI_FLOOR_COMPONENT_THRESHOLD := 20.0
  const AI_FLOOR_COMPOSITE_CAP := 50.0

  /** The five base components and the extra dimensions a lens may weigh. */
  datatype Component =
    | Demand | OrganicCompetition | LocalCompetition | Monetization | AiResilience
    | Lens(name: string)

  type Scores = map<Component, real>

  const BASE_GATE_COMPONENTS: seq<Component> :=
    [Demand, OrganicCompetition, LocalCompetition, Monetization, AiResilience]

  function ScoreOf(scores: Scores, c: Component, default: real): real {
    if c in scores then scores[c] else default
  }

  function WeightedOver(scores: Scores, weights: map<Component, real>, keys: seq<Component>): real
    requires forall c :: c in keys ==> c in weights
  {
    if keys == [] then 0.0
    else WeightedOver(scores, weights, Front(keys)) + ScoreOf(scores, Last(keys), 0.0) * weights[Last(keys)]
  }

  function WeightedSum(scores: Scores, weights: Dict<Component, real>): real
    requires weights.Valid()
  {
    WeightedOver(scores, weights.vals, weights.keys)
  }

  /** The lowest score among the given components that have one. */
  function LowestOf(scores: Scores, components: seq<Component>): (m: Option<real>)
    ensures m.None? <==> forall c :: c in components ==> c !in scores
    ensures m.Some? ==> exists c :: c in components && c in scores && scores[c] == m.value
    ensures m.Some? ==> forall c :: c in components && c in scores ==> m.value <= scores[c]
  {
    if components == [] then None
    else
      var rest, c := LowestOf(scores, Front(components)), Last(components);
      assert components == Front(components) + [c];
      if c !in scores then rest
      else if rest.None? || scores[c] < rest.value then Some(scores[c])
      else rest
  }

  function AtMost(value: real, cap: real): real {
    if value <= cap then value else cap
  }

  function OpportunityScore(scores: Scores, weights: Dict<Component, real>): real
    requires weights.Valid()
  {
    var raw := WeightedSum(scores, weights);
    var lowest := LowestOf(scores, BASE_GATE_COMPONENTS);
    var gated :=
      if lowest.None? then raw
      else if lowest.value < THRESHOLD_GATE_HARD_MIN_COMPONENT then AtMost(raw, THRESHOLD_GATE_HARD_CAP)
      else if lowest.value < THRESHOLD_GATE_SOFT_MIN_COMPONENT then AtMost(raw, THRESHOLD_GATE_SOFT_CAP)
      else raw;
    var floored :=
      if ScoreOf(scores, AiResilience, 100.0) < AI_FLOOR_COMPONENT_THRESHOLD then AtMost(gated, AI_FLOOR_COMPOSITE_CAP)
      else gated;
    Percentage(floored)
  }

  /** Some base component has a score below threshold. */
  ghost predicate SomeBaseBelow(scores: Scores, threshold: real) {
    exists c :: c in scores && !c.Lens? && scores[c] < threshold
  }

  lemma BaseComponents(c: Component)
    ensures c in BASE_GATE_COMPONENTS <==> !c.Lens?
  {
    assert BASE_GATE_COMPONENTS[0] == Demand && BASE_GATE_COMPONENTS[1] == OrganicCompetition;
    assert BASE_GATE_COMPONENTS[2] == LocalCompetition && BASE_GATE_COMPONENTS[3] == Monetization;
    assert BASE_GATE_COMPONENTS[4] == AiResilience;
  }

  lemma LowestMeaning(scores: Scores)
    ensures var lowest := LowestOf(scores, BASE_GATE_COMPONENTS);
            && (lowest.None? ==> forall c :: c in scores ==> c.Lens?)
            && (forall t: real :: SomeBaseBelow(scores, t) <==> lowest.Some? && lowest.value < t)
  {
    hide BASE_GATE_COMPONENTS;
    forall c ensures c in BASE_GATE_COMPONENTS <==> !c.Lens? {
      BaseComponents(c);
    }
  }

  /** A cap the rules put on the composite of these component scores. */
  ghost predicate Caps(scores: Scores, cap: real) {
    || cap == 100.0
    || (cap == 20.0 && SomeBaseBelow(scores, 5.0))
    || (cap == 40.0 && SomeBaseBelow(scores, 15.0))
    || (cap == 50.0 && AiResilience in scores && scores[AiResilience] < 20.0)
  }

  /** No cap that applies to these component scores is below the score. */
  ghost predicate RespectsCaps(score: real, scores: Scores) {
    forall cap :: Caps(scores, cap) ==> score <= cap
  }

  /** The score is the weighted sum, raised to zero if negative, or the lowest cap that applies,
      whichever is less. */
  lemma OpportunityMeaning(scores: Scores, weights: Dict<Component, real>)
    requires weights.Valid()
    ensures 0.0 <= OpportunityScore(scores, weights) <= 100.0
    ensures forall cap :: Caps(scores, cap) ==> OpportunityScore(scores, weights) <= cap
    ensures WeightedSum(scores, weights) >= 0.0 ==> OpportunityScore(scores, weights) <= WeightedSum(scores, weights)
    ensures WeightedSum(scores, weights) < 0.0 ==> OpportunityScore(scores, weights) == 0.0
    ensures WeightedSum(scores, weights) >= 0.0 ==>
      || OpportunityScore(scores, weights) == WeightedSum(scores, weights)
      || Caps(scores, OpportunityScore(scores, weights))
  {
    hide WeightedSum, LowestOf, SomeBaseBelow;
    LowestMeaning(scores);
  }

  /** Only which components and scores the caps look at matters: raising scores lifts caps. */
  lemma CapsShrink(worse: Scores, better: Scores, cap: real)
    requires worse.Keys == better.Keys && forall c :: c in worse ==> worse[c] <= better[c]
    ensures Caps(better, cap) ==> Caps(worse, cap)
  {
  }

  lemma {:induction false} WeightedMonotone(
      worse: Scores, better: Scores, weights: map<Component, real>, keys: seq<Component>)
    requires forall c :: c in keys ==> c in weights && weights[c] >= 0.0
    requires worse.Keys == better.Keys && forall c :: c in worse ==> worse[c] <= better[c]
    ensures WeightedOver(worse, weights, keys) <= WeightedOver(better, weights, keys)
  {
    if keys != [] {
      var c := Last(keys);
      WeightedMonotone(worse, better, weights, Front(keys));
      FactorMonotone(ScoreOf(worse, c, 0.0), ScoreOf(better, c, 0.0), weights[c]);
    }
  }

  /** Despite the caps, raising components over one set of components never lowers the score. */
  lemma OpportunityMonotone(worse: Scores, better: Scores, weights: Dict<Component, real>)
    requires weights.Valid() && forall c :: c in weights.vals ==> weights.vals[c] >= 0.0
    requires worse.Keys == better.Keys && forall c :: c in worse ==> worse[c] <= better[c]
    ensures OpportunityScore(worse, weights) <= OpportunityScore(better, weights)
  {
    WeightedMonotone(worse, better, weights.vals, weights.keys);
    var high, low := WeightedSum(better, weights), WeightedSum(worse, weights);
    hide WeightedSum, OpportunityScore;
    OpportunityMeaning(worse, weights);
    OpportunityMeaning(better, weights);
    CapsShrink(worse, better, OpportunityScore(better, weights));
  }

  // ----- Scoring one more component --------------------------------------------------------

  lemma NewShare(scores: Scores, c: Component, v: real, k: Component, weight: real)
    requires c !in scores
    ensures ScoreOf(scores[c := v], k, 0.0) * weight
         == ScoreOf(scores, k, 0.0) * weight + if k == c then v * weight else 0.0
  {
  }

  lemma {:induction false} WeightedWithNew(
      scores: Scores, weights: map<Component, real>, keys: seq<Component>, c: Component, v: real)
    requires c !in scores && Distinct(keys) && forall k :: k in keys ==> k in weights
    ensures WeightedOver(scores[c := v], weights, keys) ==
      WeightedOver(scores, weights, keys) + if c in keys then v * weights[c] else 0.0
  {
    hide ScoreOf;
    if keys != [] {
      var front, last := Front(keys), Last(keys);
      assert keys == front + [last];
      WeightedWithNew(scores, weights, front, c, v);
      NewShare(scores, c, v, last, weights[last]);
      assert last !in front;
    }
  }

  /** A component that was not scored before keeps the score from falling exactly when the old score
      respects every cap that then applies and the new weighted sum reaches it. */
  lemma NewComponentKeepsScoreIff(scores: Scores, weights: Dict<Component, real>, c: Component, v: real)
    requires weights.Valid() && c !in scores
    ensures OpportunityScore(scores, weights) <= OpportunityScore(scores[c := v], weights) <==>
      && RespectsCaps(OpportunityScore(scores, weights), scores[c := v])
      && (|| OpportunityScore(scores, weights) == 0.0
          || OpportunityScore(scores, weights) <= WeightedSum(scores[c := v], weights))
  {
    hide WeightedSum, OpportunityScore, Caps;
    OpportunityMeaning(scores, weights);
    OpportunityMeaning(scores[c := v], weights);
  }

  /** When the new component's share is not negative, only the caps can make the score fall. */
  lemma OnlyCapsCanLower(scores: Scores, weights: Dict<Component, real>, c: Component, v: real)
    requires weights.Valid() && c !in scores && (c in weights.vals ==> v * weights.vals[c] >= 0.0)
    ensures OpportunityScore(scores, weights) <= OpportunityScore(scores[c := v], weights) <==>
      RespectsCaps(OpportunityScore(scores, weights), scores[c := v])
  {
    WeightedWithNew(scores, weights.vals, weights.keys, c, v);
    var before, after := WeightedSum(scores, weights), WeightedSum(scores[c := v], weights);
    assert before <= after;
    hide WeightedSum, OpportunityScore, Caps;
    NewComponentKeepsScoreIff(scores, weights, c, v);
    OpportunityMeaning(scores, weights);
  }

  /** A perfect score over one component falls to 20 when a low base component is scored too. */
  lemma NewComponentCanLower() returns (before: Scores, after: Scores, weights: Dict<Component, real>)
    ensures weights.Valid() && forall c :: c in weights.vals ==> weights.vals[c] >= 0.0
    ensures after == before[Demand := 1.0] && Demand !in before
    ensures OpportunityScore(before, weights) > OpportunityScore(after, weights)
  {
    before := map[Monetization := 100.0];
    after := before[Demand := 1.0];
    weights := Dict([Monetization], map[Monetization := 1.0]);
    assert Front(weights.keys) == [];
    assert WeightedOver(before, weights.vals, []) == 0.0;
    assert WeightedSum(before, weights) == 100.0;
    hide WeightedSum, OpportunityScore;
    OpportunityMeaning(before, weights);
    OpportunityMeaning(after, weights);
    assert SomeBaseBelow(after, 5.0);
    assert Caps(after, 20.0);
    assert !SomeBaseBelow(before, 15.0);
    assert !Caps(before, OpportunityScore(before, weights)) || OpportunityScore(before, weights) == 100.0;
  }

  /** Weight times score, for every component that has both. */
  ghost function Share(scores: Scores, weights: map<Component, real>): Component -> real {
    c => if c in scores && c in weights then scores[c] * weights[c] else 0.0
  }

  lemma {:induction false} WeightedOverFlat(scores: Scores, weights: map<Component, real>, keys: seq<Component>)
    requires forall c :: c in keys ==> c in weights
    ensures WeightedOver(scores, weights, keys) == Sum(Share(scores, weights), keys)
  {
    if keys != [] {
      WeightedOverFlat(scores, weights, Front(keys));
    }
  }

  /** The weighted sum adds weight times score over the listed components, in whatever order; a component
      without a score adds nothing. */
  lemma WeightedSumMeaning(scores: Scores, weights: Dict<Component, real>, order: seq<Component>)
    requires weights.Valid() && IsPermutation(weights.keys, order)
    ensures WeightedSum(scores, weights) == Sum(Share(scores, weights.vals), order)
  {
    WeightedOverFlat(scores, weights.vals, weights.keys);
    SumPermutation(Share(scores, weights.vals), weights.keys, order);
  }

  /** The order in which the weights are listed does not matter. */
  lemma WeightOrderIrrelevant(scores: Scores, weights: Dict<Component, real>, reordered: Dict<Component, real>)
    requires weights.Valid() && reordered.Valid() && weights.vals == reordered.vals
    ensures OpportunityScore(scores, weights) == OpportunityScore(scores, reordered)
  {
    hide WeightedSum;
    SameElements(weights.keys, reordered.keys);
    WeightedSumMeaning(scores, weights, reordered.keys);
    WeightedSumMeaning(scores, reordered, reordered.keys);
  }

  /** With all else equal, more search volume in the same cohort never lowers the opportunity, when
      volume cannot hurt. */
  lemma OpportunityFollowsVolume(
    scores: Scores, weights: Dict<Component, real>, worse: Signals, better: Signals, cohort: seq<real>)
    requires weights.Valid() && forall c :: c in weights.vals ==> weights.vals[c] >= 0.0
    requires better == worse.(volume := better.volume) && worse.volume <= better.volume && VolumeNeverHurts(worse)
    ensures OpportunityScore(scores[Demand := DemandScore(worse, cohort)], weights)
         <= OpportunityScore(scores[Demand := DemandScore(better, cohort)], weights)
  {
    hide DemandScore, OpportunityScore;
    DemandFollowsVolume(worse, better, cohort);
    var low, high := scores[Demand := DemandScore(worse, cohort)], scores[Demand := DemandScore(better, cohort)];
    OpportunityMonotone(low, high, weights);
  }
}
