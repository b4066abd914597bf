/** A worked run of five crawls of one repository under the default configuration. */
module Scenario {
  import opened Nullable
  import opened Trend
  import opened RepoEntity
  import opened CandidateEntity
  import opened Ingestion

  /** The metadata body for repository 7 (`acme/rocket`) with a given star count. */
  function RocketMeta(stars: int): Meta {
    Meta(Some(7), None, Some("rocket"), Some("acme/rocket"), Some("acme"), None, None, None,
         Some(stars), None, None, None)
  }

  /** A crawl at time `now` seeing `stars` stars; the README is not found. */
  function CrawlAnswer(stars: int, now: int): Upstream {
    Upstream(Some(RocketMeta(stars)), ReadmeResponse(404, None), 1.0, now)
  }

  function NoDecode(s: string): Option<string> { None }

  /** One crawl of the repository, requested under `name`. */
  function Step(st: Store, name: string, stars: int, now: int): (Outcome, Store) {
    Ingest(st, DefaultConfig, Some(name), CrawlAnswer(stars, now), NoDecode)
  }

  /** A crawl of the known repository: its stage moves by the growth since the stored count. */
  lemma {:induction false} StepFromKnown(st: Store, name: string, stars: int, now: int)
    requires '/' in name
    requires 7 in st.repos && st.repos[7].stargazersCount.Some? && st.repos[7].stargazersCount.value > 0
    requires st.repos[7].trendStage.Some?
    ensures var (out, st') := Step(st, name, stars, now);
      var prev := st.repos[7].stargazersCount.value;
      var stage := NextStage(st.repos[7].trendStage.value, GrowthRate(stars, prev) >= 0.10);
      && out.Saved?
      && out.repo.trendStage == Some(stage)
      && out.repo.stargazersCount == Some(stars)
      && out.repo.fullName == Some("acme/rocket") && out.repo.id == Some(7)
      && st'.repos.Keys == st.repos.Keys && st'.repos[7] == out.repo
      && st'.nextCandidateId == st.nextCandidateId + |st'.candidates| - |st.candidates|
      && st'.candidates ==
           (if st.repos[7].trendStage.value == 1 && stage == 2 && !CandidateQueries.ExistsByRepoId(st.candidates, Some(7))
            then st.candidates + [NewCandidate(st, out.repo, now)]
            else st.candidates)
  {
    var m := RocketMeta(stars);
    var merged := MergeMeta(st.repos[7], m);
    assert merged.previousStars == st.repos[7].stargazersCount;
    assert ApplyReadme(merged, ReadmeResponse(404, None), NoDecode) == Some(merged);
    var ev := Evaluate(merged, DefaultConfig, 1.0, now);
    assert AgeFactor(DefaultConfig, merged.createdAt, 1.0) == 1.0;
    var prev := st.repos[7].stargazersCount.value;
    assert ev.repo.trendScore == Some(GrowthRate(stars, prev) * 1.0 * 1.0 * 1.0);
  }

  /** The first crawl creates the record at stage 0. */
  lemma {:induction false} FirstStep(name: string, stars: int, now: int)
    requires '/' in name
    requires stars > 0
    ensures var (out, st') := Step(Store(map[], [], 1), name, stars, now);
      && out.Saved? && out.repo.trendStage == Some(0) && out.repo.stargazersCount == Some(stars)
      && st'.repos.Keys == {7} && st'.repos[7] == out.repo && st'.candidates == []
      && st'.nextCandidateId == 1
  {
    var m := RocketMeta(stars);
    var merged := MergeMeta(EmptyRepo, m);
    assert merged.previousStars == Some(stars) && merged.trendStage == Some(0);
    assert ApplyReadme(merged, ReadmeResponse(404, None), NoDecode) == Some(merged);
    GrowthRateSign(stars, stars);
  }

  /** The store holds only this repository, at `stars` stars and stage `stage`, and no candidate. */
  ghost predicate RocketAt(st: Store, stars: int, stage: int) {
    && st.repos.Keys == {7} && st.repos[7].stargazersCount == Some(stars)
    && st.repos[7].trendStage == Some(stage)
    && st.candidates == [] && st.nextCandidateId == 1
  }

  /** A crawl that does not reach stage 2 keeps the candidate store empty. */
  lemma Advance(st: Store, name: string, prev: int, stage: int, stars: int, now: int, out: Outcome, st': Store)
    requires '/' in name && RocketAt(st, prev, stage) && prev > 0
    requires (out, st') == Step(st, name, stars, now)
    requires NextStage(stage, GrowthRate(stars, prev) >= 0.10) != 2
    ensures out.Saved? && out.repo.trendStage == Some(NextStage(stage, GrowthRate(stars, prev) >= 0.10))
    ensures RocketAt(st', stars, NextStage(stage, GrowthRate(stars, prev) >= 0.10))
  {
    StepFromKnown(st, name, stars, now);
  }

  /** Crawls one to three: stages 0, 1, 0. */
  lemma {:induction false} FirstThreeCrawls(name: string, o1: Outcome, s1: Store, o2: Outcome, s2: Store, o3: Outcome, s3: Store)
    requires '/' in name
    requires (o1, s1) == Step(Store(map[], [], 1), name, 1000, 1)
    requires (o2, s2) == Step(s1, name, 1300, 2)
    requires (o3, s3) == Step(s2, name, 1301, 3)
    ensures o1.Saved? && o1.repo.trendStage == Some(0)
    ensures o2.Saved? && o2.repo.trendStage == Some(1)
    ensures o3.Saved? && o3.repo.trendStage == Some(0)
    ensures RocketAt(s3, 1301, 0)
  {
    FirstStep(name, 1000, 1);
    assert GrowthRate(1300, 1000) >= 0.10;
    Advance(s1, name, 1000, 0, 1300, 2, o2, s2);
    assert GrowthRate(1301, 1300) < 0.10;
    Advance(s2, name, 1300, 1, 1301, 3, o3, s3);
  }

  /** Crawls four and five: stages 1 and 2, and the one candidate. */
  lemma {:induction false} LastTwoCrawls(name: string, s3: Store, o4: Outcome, s4: Store, o5: Outcome, s5: Store)
    requires '/' in name
    requires RocketAt(s3, 1301, 0)
    requires (o4, s4) == Step(s3, name, 1700, 4)
    requires (o5, s5) == Step(s4, name, 2200, 5)
    ensures o4.Saved? && o4.repo.trendStage == Some(1)
    ensures o5.Saved? && o5.repo.trendStage == Some(2)
    ensures s4.candidates == []
    ensures s5.candidates == [Candidate(Some(1), Some(7), Some("acme/rocket"), Some(5), Some(false))]
    ensures s5.repos.Keys == {7}
  {
    assert GrowthRate(1700, 1301) >= 0.10;
    Advance(s3, name, 1301, 0, 1700, 4, o4, s4);
    assert GrowthRate(2200, 1700) >= 0.10;
    StepFromKnown(s4, name, 2200, 5);
  }

  /**
   * 1000 stars first, then 1300 (growth 0.30), 1301 (about 0.0008), 1700 (about 0.31) and 2200
   * (about 0.29) against the 0.10 threshold: stages 0, 1, 0, 1, 2, and exactly one candidate,
   * undispatched, created at the fifth crawl.
   */
  lemma {:induction false} FiveCrawls(name: string, o1: Outcome, s1: Store, o2: Outcome, s2: Store, o3: Outcome, s3: Store,
                                      o4: Outcome, s4: Store, o5: Outcome, s5: Store)
    requires '/' in name
    requires (o1, s1) == Step(Store(map[], [], 1), name, 1000, 1)
    requires (o2, s2) == Step(s1, name, 1300, 2)
    requires (o3, s3) == Step(s2, name, 1301, 3)
    requires (o4, s4) == Step(s3, name, 1700, 4)
    requires (o5, s5) == Step(s4, name, 2200, 5)
    ensures o1.Saved? && o1.repo.trendStage == Some(0)
    ensures o2.Saved? && o2.repo.trendStage == Some(1)
    ensures o3.Saved? && o3.repo.trendStage == Some(0)
    ensures o4.Saved? && o4.repo.trendStage == Some(1)
    ensures o5.Saved? && o5.repo.trendStage == Some(2)
    ensures s5.candidates == [Candidate(Some(1), Some(7), Some("acme/rocket"), Some(5), Some(false))]
  {
    FirstThreeCrawls(name, o1, s1, o2, s2, o3, s3);
    LastTwoCrawls(name, s3, o4, s4, o5, s5);
  }
}
