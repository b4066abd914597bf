/**
 * The growth-rate, score and stage arithmetic of GitHubService.evaluateTrendAndMaybePromote,
 * over exact reals instead of Java doubles.
 */
module Trend {
  import opened Nullable

  /** The `@Value` settings the engine reads (crawler.max-pages and the trend.* options). */
  datatype Config = Config(
    maxPages: int,
    growthWeight: real,
    penaltyWeight: real,
    ageHalfLifeDays: real,
    trendThreshold: real)

  /** The defaults written in the `@Value` annotations. */
  const DefaultConfig := Config(10, 1.0, 1.0, 720.0, 0.10)

  /** `orZero`: a null count reads as 0. */
  function OrZero(v: Option<int>): (r: int)
    ensures v.Some? ==> r == v.value
    ensures v.None? ==> r == 0
  {
    v.GetOr(0)
  }

  /** `(curr - prev) / prev`, or 0 when there is no positive baseline. */
  function GrowthRate(curr: int, prev: int): real
  {
    if prev <= 0 then 0.0 else (curr - prev) as real / prev as real
  }

  /**
   * `agePenaltyFactor`: 1 when the creation time is unknown or the half-life is not positive;
   * otherwise `decay`, the value 0.5^(ageDays / halfLife) that the clock yields.
   */
  function AgeFactor(cfg: Config, createdAt: Option<int>, decay: real): real
  {
    if createdAt.None? || cfg.ageHalfLifeDays <= 0.0 then 1.0 else decay
  }

  function Score(cfg: Config, growth: real, ageFactor: real): real
  {
    growth * cfg.growthWeight * ageFactor * cfg.penaltyWeight
  }

  /**
   * Stage update: a stage of 0 or 1 moves up one (at most to 2) when the score reaches
   * the threshold and falls from 1 to 0 when it does not; any other stage is left alone.
   */
  function NextStage(stage: int, passes: bool): int
  {
    if stage == 0 || stage == 1 then
      if passes then if stage + 1 < 2 then stage + 1 else 2
      else if stage == 1 then 0 else stage
    else stage
  }

  /** The moves the stage may make: 0→0, 0→1, 1→0, 1→2 and 2→2. */
  predicate AllowedMove(from: int, to: int) {
    (from == 0 && (to == 0 || to == 1)) || (from == 1 && (to == 0 || to == 2)) || (from == 2 && to == 2)
  }

  // ---------------------------------------------------------------- growth

  /** Growth is the fractional change: applied to the baseline, it gives the current count back. */
  lemma GrowthRateInverse(curr: int, prev: int)
    requires prev > 0
    ensures prev as real * (1.0 + GrowthRate(curr, prev)) == curr as real
  {
    var g := GrowthRate(curr, prev);
    calc {
      prev as real * (1.0 + g);
      prev as real + prev as real * ((curr - prev) as real / prev as real);
      prev as real + (curr - prev) as real;
    }
  }

  /** Growth is 0 without a positive baseline, and has the sign of the change otherwise. */
  lemma GrowthRateSign(curr: int, prev: int)
    ensures prev <= 0 ==> GrowthRate(curr, prev) == 0.0
    ensures prev > 0 ==> (GrowthRate(curr, prev) > 0.0 <==> curr > prev)
    ensures prev > 0 ==> (GrowthRate(curr, prev) == 0.0 <==> curr == prev)
  {
    if prev > 0 {
      GrowthRateInverse(curr, prev);
    }
  }

  lemma GrowthRateExamples()
    ensures GrowthRate(150, 100) == 0.5
    ensures GrowthRate(12345, 0) == 0.0
  {
  }

  /** The age factor is 1 when it cannot be computed, and the decay otherwise. */
  lemma AgeFactorCases(cfg: Config, createdAt: Option<int>, decay: real)
    ensures createdAt.None? ==> AgeFactor(cfg, createdAt, decay) == 1.0
    ensures cfg.ageHalfLifeDays <= 0.0 ==> AgeFactor(cfg, createdAt, decay) == 1.0
    ensures createdAt.Some? && cfg.ageHalfLifeDays > 0.0 ==> AgeFactor(cfg, createdAt, decay) == decay
  {
  }

  /** With positive weights and factor the score is positive exactly when the stars grew. */
  lemma ScoreSign(cfg: Config, curr: int, prev: int, factor: real)
    requires cfg.growthWeight > 0.0 && cfg.penaltyWeight > 0.0 && factor > 0.0
    requires prev > 0
    ensures Score(cfg, GrowthRate(curr, prev), factor) > 0.0 <==> curr > prev
    ensures Score(cfg, GrowthRate(curr, prev), factor) == 0.0 <==> curr == prev
  {
    GrowthRateSign(curr, prev);
    var g := GrowthRate(curr, prev);
    var w := cfg.growthWeight * factor * cfg.penaltyWeight;
    assert w > 0.0;
    assert Score(cfg, g, factor) == g * w;
  }

  /** Zero growth scores zero, whatever the weights and the age. */
  lemma ZeroGrowthScoresZero(cfg: Config, factor: real)
    ensures Score(cfg, 0.0, factor) == 0.0
  {
  }

  // ---------------------------------------------------------------- stage

  /** From a stage in {0, 1, 2} the stage stays in {0, 1, 2} and only makes allowed moves. */
  lemma StageMoves(stage: int, passes: bool)
    requires 0 <= stage <= 2
    ensures 0 <= NextStage(stage, passes) <= 2
    ensures AllowedMove(stage, NextStage(stage, passes))
  {
  }

  /** Every allowed move is taken by some outcome of the threshold test (the converse of StageMoves). */
  lemma AllowedMovesAreTaken(from: int, to: int)
    requires AllowedMove(from, to)
    ensures exists passes :: NextStage(from, passes) == to
  {
    if to == 0 {
      assert NextStage(from, false) == to;
    } else {
      assert NextStage(from, true) == to;
    }
  }

  /** Passing never lowers the stage; failing never raises it; stage 2 is frozen. */
  lemma StageMonotone(stage: int, passes: bool)
    ensures passes ==> NextStage(stage, passes) >= stage
    ensures !passes ==> NextStage(stage, passes) <= stage
    ensures stage == 2 ==> NextStage(stage, passes) == 2
    ensures stage != 0 && stage != 1 ==> NextStage(stage, passes) == stage
  {
  }

  /** Entering stage 2 happens exactly from stage 1 with a passing score. */
  lemma PromotionIff(stage: int, passes: bool)
    ensures (stage < 2 && NextStage(stage, passes) == 2) <==> (stage == 1 && passes)
  {
  }

  /** Stage 1 never stays at 1: one more evaluation either promotes or demotes it. */
  lemma StageOneIsTransient(passes: bool)
    ensures NextStage(1, passes) != 1
  {
  }
}
