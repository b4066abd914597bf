/** What one ingestion promises about the record, the README cache and the candidate store. */
module IngestionProperties {
  import opened Nullable
  import opened FullName
  import opened Trend
  import opened RepoEntity
  import opened CandidateEntity
  import opened CandidateQueries
  import opened Ingestion

  // ---------------------------------------------------------------- merge

  /** First ingestion (no star count yet): baseline := new count, zero growth and score, stage 0 only if unset. */
  lemma MergeFirstIngestion(e: Repo, m: Meta)
    requires m.id.Some? && e.stargazersCount.None? && m.stargazersCount.Some?
    ensures MergeMeta(e, m).previousStars == m.stargazersCount
    ensures MergeMeta(e, m).growthRate == Some(0.0) && MergeMeta(e, m).trendScore == Some(0.0)
    ensures MergeMeta(e, m).trendStage == if e.trendStage.None? then Some(0) else e.trendStage
  {
  }

  /** Known record: the baseline becomes the star count held before the merge; the trend fields stay. */
  lemma MergeExistingRecord(e: Repo, m: Meta)
    requires m.id.Some? && e.stargazersCount.Some?
    ensures MergeMeta(e, m).previousStars == e.stargazersCount
    ensures MergeMeta(e, m).growthRate == e.growthRate && MergeMeta(e, m).trendScore == e.trendScore
    ensures MergeMeta(e, m).trendStage == e.trendStage
  {
  }

  /**
   * After an evaluation the baseline equals the star count, so on such a record the merge
   * keeps the stored baseline, which is what the comment on the existing-record branch says.
   */
  lemma MergeKeepsEvaluatedBaseline(e: Repo, m: Meta)
    requires m.id.Some? && e.stargazersCount.Some? && e.previousStars == e.stargazersCount
    ensures MergeMeta(e, m).previousStars == e.previousStars
  {
  }

  /** The metadata fields are overwritten; the README cache and the crawl/check stamps are not touched. */
  lemma MergeOverwritesDisplayFields(e: Repo, m: Meta)
    requires m.id.Some?
    ensures var r := MergeMeta(e, m);
      && r.id == m.id && r.nodeId == m.nodeId && r.name == m.name && r.fullName == m.fullName
      && r.ownerLogin == m.ownerLogin && r.htmlUrl == m.htmlUrl && r.description == m.description
      && r.language == m.language && r.stargazersCount == m.stargazersCount
      && r.createdAt == m.createdAt && r.pushedAt == m.pushedAt && r.updatedAt == m.updatedAt
      && r.readmeText == e.readmeText && r.readmeSha == e.readmeSha && r.readmeEtag == e.readmeEtag
      && r.lastCrawledAt == e.lastCrawledAt && r.lastCheckedAt == e.lastCheckedAt
  {
  }

  // ---------------------------------------------------------------- README

  /** 304, 404 and every other non-2xx answer leave the record as it is. */
  lemma ReadmeNon2xxLeavesCache(e: Repo, resp: ReadmeResponse, decode: Decoder)
    requires resp.status == 304 || resp.status == 404 || !(200 <= resp.status < 300)
    ensures ApplyReadme(e, resp, decode) == Some(e)
  {
  }

  /**
   * A 2xx answer with a body overwrites text and sha; the text is non-null only for content
   * labelled base64, and is then what the decoder yields.
   */
  lemma Readme2xxOverwrites(e: Repo, resp: ReadmeResponse, decode: Decoder)
    requires 200 <= resp.status < 300 && resp.body.Some?
    requires ApplyReadme(e, resp, decode).Some?
    ensures var r := ApplyReadme(e, resp, decode).value; var b := resp.body.value;
      && r.readmeSha == b.sha
      && (r.readmeText.Some? <==> b.content.Some? && IsBase64Label(b.encoding))
      && (r.readmeText.Some? ==> decode(b.content.value) == r.readmeText)
  {
  }

  /** The README step writes nothing but `readmeText` and `readmeSha`; in particular never the etag. */
  lemma ReadmeTouchesOnlyTextAndSha(e: Repo, resp: ReadmeResponse, decode: Decoder)
    requires ApplyReadme(e, resp, decode).Some?
    ensures var r := ApplyReadme(e, resp, decode).value;
      r == e.(readmeText := r.readmeText, readmeSha := r.readmeSha)
  {
  }

  /** The decoder throwing is the only way the README step fails. */
  lemma ReadmeFailsOnlyOnDecode(e: Repo, resp: ReadmeResponse, decode: Decoder)
    requires ApplyReadme(e, resp, decode).None?
    ensures ReadmeBodyOf(resp).Some?
    ensures var b := ReadmeBodyOf(resp).value;
      b.content.Some? && IsBase64Label(b.encoding) && decode(b.content.value).None?
  {
  }

  /** A 2xx answer whose body has no base64 content clears the cached text. */
  lemma ReadmeWithoutContentClearsText(e: Repo, b: ReadmeBody, status: int, decode: Decoder)
    requires 200 <= status < 300 && b.content.None?
    ensures ApplyReadme(e, ReadmeResponse(status, Some(b)), decode) == Some(e.(readmeText := None, readmeSha := b.sha))
  {
  }

  lemma Base64LabelExamples()
    ensures IsBase64Label(Some("base64")) && IsBase64Label(Some("BASE64")) && IsBase64Label(Some("Base64"))
    ensures !IsBase64Label(Some("base-64")) && !IsBase64Label(Some("utf-8")) && !IsBase64Label(None)
  {
    assert UpperCase('a') == 'A' && UpperCase('b') == 'B';
    assert UpperCase('s') == 'S' && UpperCase('e') == 'E';
    assert UpperCase('-') != UpperCase('6');
  }

  // ---------------------------------------------------------------- evaluation

  /**
   * Evaluation stores the growth over the old baseline, the score of that growth, and the
   * next stage for that score; the current count becomes the baseline.
   */
  lemma EvaluateStoresResults(e: Repo, cfg: Config, decay: real, now: int)
    ensures var r := Evaluate(e, cfg, decay, now).repo;
      var growth := GrowthRate(OrZero(e.stargazersCount), OrZero(e.previousStars));
      var score := Score(cfg, growth, AgeFactor(cfg, e.createdAt, decay));
      && r.previousStars == Some(OrZero(e.stargazersCount))
      && r.growthRate == Some(growth)
      && r.trendScore == Some(score)
      && r.trendStage == Some(NextStage(OrZero(e.trendStage), score >= cfg.trendThreshold))
      && r.lastCheckedAt == Some(now)
      && r.id == e.id && r.fullName == e.fullName && r.stargazersCount == e.stargazersCount
      && r.readmeText == e.readmeText && r.readmeSha == e.readmeSha && r.readmeEtag == e.readmeEtag
  {
  }

  /** The stored stage keeps to {0, 1, 2} and moves only along the allowed edges. */
  lemma {:induction false} EvaluateStageMoves(e: Repo, cfg: Config, decay: real, now: int)
    requires StageDocumented(e)
    ensures var r := Evaluate(e, cfg, decay, now).repo;
      StageDocumented(r) && AllowedMove(OrZero(e.trendStage), r.trendStage.value)
  {
    var g := GrowthRate(OrZero(e.stargazersCount), OrZero(e.previousStars));
    var s := Score(cfg, g, AgeFactor(cfg, e.createdAt, decay));
    StageMoves(OrZero(e.trendStage), s >= cfg.trendThreshold);
  }

  /** The promotion flag is raised exactly when a stage-1 record scores at least the threshold. */
  lemma {:induction false} PromotedExactlyFromStageOne(e: Repo, cfg: Config, decay: real, now: int)
    ensures Evaluate(e, cfg, decay, now).promotedTo2Now <==>
      OrZero(e.trendStage) == 1 && Evaluate(e, cfg, decay, now).repo.trendScore.value >= cfg.trendThreshold
  {
    var g := GrowthRate(OrZero(e.stargazersCount), OrZero(e.previousStars));
    var s := Score(cfg, g, AgeFactor(cfg, e.createdAt, decay));
    PromotionIff(OrZero(e.trendStage), s >= cfg.trendThreshold);
  }

  /**
   * An unchanged star count gives zero growth and score, which fails any positive threshold:
   * stage 1 falls to 0, stages 0 and 2 stay, and nothing is promoted.
   */
  lemma {:induction false} UnchangedStarsDemote(e: Repo, cfg: Config, decay: real, now: int)
    requires OrZero(e.stargazersCount) == OrZero(e.previousStars)
    requires cfg.trendThreshold > 0.0
    ensures var ev := Evaluate(e, cfg, decay, now);
      && ev.repo.growthRate == Some(0.0) && ev.repo.trendScore == Some(0.0)
      && ev.repo.trendStage == Some(if OrZero(e.trendStage) == 1 then 0 else OrZero(e.trendStage))
      && !ev.promotedTo2Now
  {
    var c := OrZero(e.stargazersCount);
    GrowthRateSign(c, c);
    ZeroGrowthScoresZero(cfg, AgeFactor(cfg, e.createdAt, decay));
  }

  // ---------------------------------------------------------------- the pipeline

  /** A failed or empty ingestion writes nothing. */
  lemma IngestFailureWritesNothing(st: Store, cfg: Config, fullName: Option<string>, up: Upstream, decode: Decoder)
    requires !Ingest(st, cfg, fullName, up, decode).0.Saved?
    ensures Ingest(st, cfg, fullName, up, decode).1 == st
  {
  }

  /** `upsertAndEvaluate` returns null exactly when a well-formed name meets a missing metadata body. */
  lemma IngestNullIffNoMetadata(st: Store, cfg: Config, fullName: Option<string>, up: Upstream, decode: Decoder)
    ensures Ingest(st, cfg, fullName, up, decode).0 == NoMetadata <==>
      SplitFullName(fullName).Some? && up.meta.None?
  {
  }

  /**
   * A saved record is stored under its id (inserted or updated, no other record touched),
   * was stamped with the crawl time, and has the new star count as its next baseline.
   */
  lemma IngestSavesUnderId(st: Store, cfg: Config, fullName: Option<string>, up: Upstream, decode: Decoder)
    requires Ingest(st, cfg, fullName, up, decode).0.Saved?
    ensures var (out, st') := Ingest(st, cfg, fullName, up, decode);
      && up.meta.Some? && up.meta.value.id.Some?
      && var id := up.meta.value.id.value;
      && out.repo.id == Some(id)
      && id in st'.repos && st'.repos[id] == out.repo
      && st'.repos.Keys == st.repos.Keys + {id}
      && (forall k :: k in st.repos && k != id ==> st'.repos[k] == st.repos[k])
      && out.repo.lastCrawledAt == Some(up.now) && out.repo.lastCheckedAt == Some(up.now)
      && out.repo.previousStars == Some(OrZero(up.meta.value.stargazersCount))
  {
  }

  /** Ingestion only ever appends to the candidate store: existing candidates are never changed. */
  lemma IngestAppendsCandidates(st: Store, cfg: Config, fullName: Option<string>, up: Upstream, decode: Decoder)
    ensures var st' := Ingest(st, cfg, fullName, up, decode).1;
      |st.candidates| <= |st'.candidates| && st'.candidates[..|st.candidates|] == st.candidates
  {
  }

  /**
   * A candidate is added only when the stored record was at stage 1, the saved one is at
   * stage 2 and no candidate existed for the id; it is then undispatched and for that id.
   */
  lemma {:induction false} CandidateOnlyOnPromotion(st: Store, cfg: Config, fullName: Option<string>, up: Upstream, decode: Decoder)
    requires Ingest(st, cfg, fullName, up, decode).1.candidates != st.candidates
    ensures var (out, st') := Ingest(st, cfg, fullName, up, decode);
      && out.Saved? && up.meta.Some? && up.meta.value.id.Some?
      && var id := up.meta.value.id.value;
      && OrZero(Existing(st, id).trendStage) == 1
      && out.repo.trendStage == Some(2)
      && !ExistsByRepoId(st.candidates, Some(id))
      && |st'.candidates| == |st.candidates| + 1
      && st'.candidates[|st.candidates|].repoId == Some(id)
      && st'.candidates[|st.candidates|].givenToAI == Some(false)
      && st'.candidates[|st.candidates|].promotedAt == Some(up.now)
  {
    var id := up.meta.value.id.value;
    var m := up.meta.value;
    var merged := MergeMeta(Existing(st, id), m);
    var withReadme := ApplyReadme(merged, up.readme, decode).value;
    var ev := Evaluate(withReadme, cfg, up.ageDecay, up.now);
    assert OrZero(withReadme.trendStage) == OrZero(Existing(st, id).trendStage);
    PromotedExactlyFromStageOne(withReadme, cfg, up.ageDecay, up.now);
  }

  /**
   * The converse: a saved ingestion that takes a stored stage-1 record to stage 2, while no
   * candidate exists for the id, appends exactly one candidate, undispatched, for that record
   * and promoted now, with the next candidate id.
   */
  lemma {:induction false} PromotionAddsCandidate(st: Store, cfg: Config, fullName: Option<string>, up: Upstream, decode: Decoder)
    requires Ingest(st, cfg, fullName, up, decode).0.Saved?
    requires OrZero(Existing(st, up.meta.value.id.value).trendStage) == 1
    requires Ingest(st, cfg, fullName, up, decode).0.repo.trendStage == Some(2)
    requires !ExistsByRepoId(st.candidates, up.meta.value.id)
    ensures var (out, st') := Ingest(st, cfg, fullName, up, decode);
      && st'.candidates == st.candidates +
           [Candidate(Some(st.nextCandidateId), up.meta.value.id, up.meta.value.fullName, Some(up.now), Some(false))]
      && st'.nextCandidateId == st.nextCandidateId + 1
  {
    var id := up.meta.value.id.value;
    var m := up.meta.value;
    var merged := MergeMeta(Existing(st, id), m);
    var withReadme := ApplyReadme(merged, up.readme, decode).value;
    var ev := Evaluate(withReadme, cfg, up.ageDecay, up.now);
    assert OrZero(withReadme.trendStage) == OrZero(Existing(st, id).trendStage);
    PromotedExactlyFromStageOne(withReadme, cfg, up.ageDecay, up.now);
    assert ev.promotedTo2Now;
  }

  /** Stage 2 is frozen: the record stays at 2 and no candidate is added. */
  lemma {:induction false} StageTwoIsFrozen(st: Store, cfg: Config, fullName: Option<string>, up: Upstream, decode: Decoder)
    requires Ingest(st, cfg, fullName, up, decode).0.Saved?
    requires Existing(st, up.meta.value.id.value).trendStage == Some(2)
    ensures Ingest(st, cfg, fullName, up, decode).0.repo.trendStage == Some(2)
    ensures Ingest(st, cfg, fullName, up, decode).1.candidates == st.candidates
  {
    var id := up.meta.value.id.value;
    var merged := MergeMeta(Existing(st, id), up.meta.value);
    assert merged.trendStage == Some(2);
  }

  /** Ingestion keeps the stores well formed; in particular it never creates a second candidate for a repository. */
  lemma {:induction false} IngestPreservesStoreValid(st: Store, cfg: Config, fullName: Option<string>, up: Upstream, decode: Decoder)
    requires StoreValid(st)
    ensures StoreValid(Ingest(st, cfg, fullName, up, decode).1)
  {
    var (out, st') := Ingest(st, cfg, fullName, up, decode);
    if out.Saved? {
      var m := up.meta.value;
      var id := m.id.value;
      var existing := Existing(st, id);
      var merged := MergeMeta(existing, m);
      var withReadme := ApplyReadme(merged, up.readme, decode).value;
      assert StageDocumented(existing);
      assert StageDocumented(withReadme);
      EvaluateStageMoves(withReadme, cfg, up.ageDecay, up.now);
      var ev := Evaluate(withReadme, cfg, up.ageDecay, up.now);
      var st1 := MaybeAddCandidate(st, ev.repo, ev.promotedTo2Now, up.now);
      assert ev.repo.id == Some(id);
      if st1 != st {
        var n := |st.candidates|;
        assert st1.candidates == st.candidates + [NewCandidate(st, ev.repo, up.now)];
        assert forall i :: 0 <= i < n ==> st.candidates[i].repoId != Some(id);
        assert UniqueRepoIds(st1.candidates);
      }
    }
  }

  /**
   * First ingestion of an id with a star count: zero growth and score, the count as baseline,
   * and stage 0 whenever the threshold is positive (a non-positive one would give stage 1).
   */
  lemma {:induction false} FirstIngestion(st: Store, cfg: Config, fullName: Option<string>, up: Upstream, decode: Decoder)
    requires Ingest(st, cfg, fullName, up, decode).0.Saved?
    requires up.meta.value.id.value !in st.repos && up.meta.value.stargazersCount.Some?
    ensures var out := Ingest(st, cfg, fullName, up, decode).0;
      && out.repo.growthRate == Some(0.0) && out.repo.trendScore == Some(0.0)
      && out.repo.previousStars == up.meta.value.stargazersCount
      && out.repo.trendStage == Some(if cfg.trendThreshold > 0.0 then 0 else 1)
    ensures Ingest(st, cfg, fullName, up, decode).1.candidates == st.candidates
  {
    var m := up.meta.value;
    var merged := MergeMeta(EmptyRepo, m);
    var withReadme := ApplyReadme(merged, up.readme, decode).value;
    var c := m.stargazersCount.value;
    assert OrZero(withReadme.stargazersCount) == c && OrZero(withReadme.previousStars) == c;
    assert withReadme.trendStage == Some(0);
    GrowthRateSign(c, c);
    ZeroGrowthScoresZero(cfg, AgeFactor(cfg, withReadme.createdAt, up.ageDecay));
  }

  /**
   * Re-ingesting a known repository whose star count did not change: no new record, zero growth
   * and score, stage 1 demoted to 0 under a positive threshold, stages 0 and 2 kept, no candidate.
   */
  lemma {:induction false} ReingestUnchangedStars(st: Store, cfg: Config, fullName: Option<string>, up: Upstream, decode: Decoder)
    requires Ingest(st, cfg, fullName, up, decode).0.Saved?
    requires up.meta.value.id.value in st.repos
    requires st.repos[up.meta.value.id.value].stargazersCount.Some?
    requires st.repos[up.meta.value.id.value].stargazersCount == up.meta.value.stargazersCount
    requires cfg.trendThreshold > 0.0
    ensures var (out, st') := Ingest(st, cfg, fullName, up, decode);
      var old_stage := OrZero(st.repos[up.meta.value.id.value].trendStage);
      && st'.repos.Keys == st.repos.Keys
      && out.repo.growthRate == Some(0.0) && out.repo.trendScore == Some(0.0)
      && out.repo.trendStage == Some(if old_stage == 1 then 0 else old_stage)
      && st'.candidates == st.candidates
  {
    var m := up.meta.value;
    var id := m.id.value;
    var merged := MergeMeta(st.repos[id], m);
    var withReadme := ApplyReadme(merged, up.readme, decode).value;
    assert withReadme.previousStars == withReadme.stargazersCount;
    UnchangedStarsDemote(withReadme, cfg, up.ageDecay, up.now);
  }

  /** The etag is carried over from the stored record and never set by the engine. */
  lemma IngestKeepsEtag(st: Store, cfg: Config, fullName: Option<string>, up: Upstream, decode: Decoder)
    requires Ingest(st, cfg, fullName, up, decode).0.Saved?
    ensures Ingest(st, cfg, fullName, up, decode).0.repo.readmeEtag ==
      Existing(st, up.meta.value.id.value).readmeEtag
  {
  }

  /**
   * Hence, starting without etags, no stored record ever gets one and the README request
   * never carries `If-None-Match`: conditional fetching never takes effect.
   */
  lemma NoEtagsEver(st: Store, cfg: Config, fullName: Option<string>, up: Upstream, decode: Decoder)
    requires forall id :: id in st.repos ==> IfNoneMatch(st.repos[id]).None?
    ensures var st' := Ingest(st, cfg, fullName, up, decode).1;
      forall id :: id in st'.repos ==> IfNoneMatch(st'.repos[id]).None?
  {
    if Ingest(st, cfg, fullName, up, decode).0.Saved? {
      IngestKeepsEtag(st, cfg, fullName, up, decode);
    }
  }
}
