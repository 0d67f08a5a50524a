/** The expand-and-conquer projection: how promising a city is, given its similarity to a
    reference city and the competition in both. */
module StrategyProjection {
  import opened Containers
  import opened Normalization
  import Similarity

  datatype Warning =
    | ReferenceCityNotCandidate
    | FeatureVectorSimilarityMissing
    | CompetitionBaselineMissing
    | CompetitionHigherThanReference

  /** The cached row of a candidate city; a missing or null column is None. */
  datatype CityRow = CityRow(
    referenceCityId: Option<string>,
    cbsaCode: Option<string>,
    similarity: Option<real>,
    organic: Option<real>,
    referenceOrganic: Option<real>,
    local: Option<real>,
    referenceLocal: Option<real>
  )
  {
    /** Both ids are present, not empty, and the same. */
    predicate IsReference() {
      && referenceCityId.Some? && cbsaCode.Some?
      && referenceCityId.value != "" && referenceCityId == cbsaCode
    }

    predicate HasBaseline() {
      organic.Some? && referenceOrganic.Some? && local.Some? && referenceLocal.Some?
    }

    /** Neither kind of competition is harder than in the reference city. */
    predicate NotHarder()
      requires HasBaseline()
    {
      organic.value <= referenceOrganic.value && local.value <= referenceLocal.value
    }

    /** The row gets a score of its own, instead of zero with a warning. */
    predicate IsScored() {
      !IsReference() && similarity.Some? && HasBaseline() && NotHarder()
    }
  }

  datatype Projection = Projection(score: real, warnings: seq<Warning>)

  /** Similarities up to one are fractions, larger ones are percentages already. */
  function SimilarityPercent(similarity: real): real {
    Percentage(if similarity <= 1.0 then similarity * 100.0 else similarity)
  }

  /** The candidate is the reference city itself. */
  ghost predicate SameCity(row: CityRow) {
    exists id :: id != "" && row.referenceCityId == Some(id) && row.cbsaCode == Some(id)
  }

  ghost predicate KnowsCompetition(row: CityRow) {
    row.organic != None && row.referenceOrganic != None && row.local != None && row.referenceLocal != None
  }

  /** One kind of competition is harder than in the reference city. */
  ghost predicate Harder(row: CityRow)
    requires KnowsCompetition(row)
  {
    row.referenceOrganic.value < row.organic.value || row.referenceLocal.value < row.local.value
  }

  /** The score is a percentage, it is zero for every row that has a warning, and there is at
      most one warning, the first that applies. */
  function ProjectExpandConquer(row: CityRow): (p: Projection)
    ensures 0.0 <= p.score <= 100.0
    ensures p.warnings == [] <==> row.IsScored()
    ensures p.warnings != [] ==> p.score == 0.0 && |p.warnings| == 1
    ensures ReferenceCityNotCandidate in p.warnings <==> SameCity(row)
    ensures FeatureVectorSimilarityMissing in p.warnings <==> !SameCity(row) && row.similarity == None
    ensures CompetitionBaselineMissing in p.warnings <==>
      !SameCity(row) && row.similarity != None && !KnowsCompetition(row)
    ensures CompetitionHigherThanReference in p.warnings <==>
      !SameCity(row) && row.similarity != None && KnowsCompetition(row) && Harder(row)
  {
    if row.IsReference() then Projection(0.0, [ReferenceCityNotCandidate])
    else if row.similarity.None? then Projection(0.0, [FeatureVectorSimilarityMissing])
    else if !row.HasBaseline() then Projection(0.0, [CompetitionBaselineMissing])
    else if row.organic.value > row.referenceOrganic.value || row.local.value > row.referenceLocal.value then
      Projection(0.0, [CompetitionHigherThanReference])
    else
      var gap := (row.referenceOrganic.value - row.organic.value) + (row.referenceLocal.value - row.local.value);
      Projection(Percentage(SimilarityPercent(row.similarity.value) * 0.75 + Percentage(gap / 2.0) * 0.25), [])
  }

  /** The candidate is at least as similar and at most as contested, against one reference. */
  ghost predicate AtLeastAsGood(better: CityRow, worse: CityRow) {
    && better.referenceCityId == worse.referenceCityId && better.cbsaCode == worse.cbsaCode
    && better.referenceOrganic == worse.referenceOrganic && better.referenceLocal == worse.referenceLocal
    && worse.IsScored() && better.similarity.Some? && better.HasBaseline()
    && better.similarity.value >= worse.similarity.value
    && better.organic.value <= worse.organic.value
    && better.local.value <= worse.local.value
  }

  /** The two similarities are on one scale, or the fraction of the worse one is at most the
      percentage of the better one. */
  predicate ScalesAgree(worse: real, better: real) {
    worse <= 1.0 < better ==> worse * 100.0 <= better
  }

  /** Similarity percentages grow with similarity exactly where the two scales agree. */
  lemma PercentMonotone(worse: real, better: real)
    requires worse <= better
    ensures SimilarityPercent(worse) <= SimilarityPercent(better) <==> ScalesAgree(worse, better)
  {
  }

  ghost function WithinPercent(value: real): real {
    if value < 0.0 then 0.0 else if value > 100.0 then 100.0 else value
  }

  /** The outer clamp never bites: the score is the weighted mean of two percentages. */
  lemma WeightedClamp(row: CityRow)
    requires row.IsScored()
    ensures ProjectExpandConquer(row).score ==
      SimilarityPercent(row.similarity.value) * 0.75
      + Percentage(((row.referenceOrganic.value - row.organic.value)
          + (row.referenceLocal.value - row.local.value)) / 2.0) * 0.25
  {
  }

  /** Three quarters of the score are the similarity, as a fraction up to one and as a percentage above,
      and one quarter is half the competition the city is spared. */
  lemma ScoreMeaning(row: CityRow)
    requires row.IsScored()
    ensures var s := row.similarity.value;
            var spared := row.referenceOrganic.value - row.organic.value + row.referenceLocal.value - row.local.value;
            ProjectExpandConquer(row).score
            == 0.75 * WithinPercent(if s <= 1.0 then 100.0 * s else s) + 0.25 * WithinPercent(spared / 2.0)
  {
    WeightedClamp(row);
  }

  /** A row at least as good never scores lower, as long as the scales agree; and where they do
      not, equal competition makes the more similar city score strictly lower. */
  lemma ProjectionMonotone(worse: CityRow, better: CityRow)
    requires AtLeastAsGood(better, worse)
    ensures better.IsScored()
    ensures ScalesAgree(worse.similarity.value, better.similarity.value) ==>
      ProjectExpandConquer(worse).score <= ProjectExpandConquer(better).score
    ensures better == worse.(similarity := better.similarity) ==>
      (ProjectExpandConquer(worse).score <= ProjectExpandConquer(better).score <==>
       ScalesAgree(worse.similarity.value, better.similarity.value))
  {
    PercentMonotone(worse.similarity.value, better.similarity.value);
    WeightedClamp(worse);
    WeightedClamp(better);
  }

  /** A perfect fraction beats a similarity of two, taken as two percent. */
  lemma ScalesCanDisagree() returns (worse: CityRow, better: CityRow)
    ensures AtLeastAsGood(better, worse)
    ensures ProjectExpandConquer(worse).score > ProjectExpandConquer(better).score
  {
    worse := CityRow(None, None, Some(1.0), Some(0.0), Some(0.0), Some(0.0), Some(0.0));
    better := worse.(similarity := Some(2.0));
    assert ProjectExpandConquer(worse).score == 75.0;
    assert ProjectExpandConquer(better).score == 1.5;
  }

  /** A row whose similarity is a cosine of feature vectors. */
  ghost predicate FromCosine(row: CityRow, a: seq<real>, b: seq<real>, aNorm: real, bNorm: real) {
    && Similarity.IsNorm(aNorm, a) && Similarity.IsNorm(bNorm, b)
    && row.similarity == Similarity.Cosine(a, b, aNorm, bNorm)
  }

  /** On cosines the percentage is the cosine times one hundred, never taken for a percentage
      already and never cut from above, so the score grows with the cosine. */
  lemma CosineScore(row: CityRow, a: seq<real>, b: seq<real>, aNorm: real, bNorm: real)
    requires FromCosine(row, a, b, aNorm, bNorm) && row.similarity.Some?
    ensures row.similarity.value <= 1.0
    ensures SimilarityPercent(row.similarity.value)
         == if row.similarity.value <= 0.0 then 0.0 else row.similarity.value * 100.0
  {
    Similarity.CosineRange(a, b, aNorm, bNorm);
  }

  lemma CosineMonotone(
    worse: CityRow, a: seq<real>, b: seq<real>, aNorm: real, bNorm: real,
    better: CityRow, c: seq<real>, d: seq<real>, cNorm: real, dNorm: real)
    requires FromCosine(worse, a, b, aNorm, bNorm) && FromCosine(better, c, d, cNorm, dNorm)
    requires AtLeastAsGood(better, worse)
    ensures ProjectExpandConquer(worse).score <= ProjectExpandConquer(better).score
  {
    CosineScore(worse, a, b, aNorm, bNorm);
    CosineScore(better, c, d, cNorm, dNorm);
    ProjectionMonotone(worse, better);
  }
}
