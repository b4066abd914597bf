/**
 * GitHubService as an object: the two stores it works through are fields, its methods change
 * entities and stores step by step, and each method is proved to end in the state the
 * functions of Ingestion, Dispatch and Crawl describe.
 */
module Service {
  import opened Nullable
  import opened FullName
  import opened Trend
  import opened RepoEntity
  import opened CandidateEntity
  import opened CandidateQueries
  import opened Ingestion
  import opened Dispatch
  import opened Crawl

  class GitHubService {
    /** The `@Value` settings. */
    const cfg: Config
    /** GitHubRepository: the repository rows, keyed by id. */
    var repoRows: map<int, Repo>
    /** TrendingCandidateRepository: the candidate rows, in insertion order. */
    var candidateRows: seq<Candidate>
    /** The identity column's next value for `trending_candidates`. */
    var nextCandidateId: int

    function State(): Store
      reads this
    {
      Store(repoRows, candidateRows, nextCandidateId)
    }

    constructor (cfg: Config, st: Store)
      ensures this.cfg == cfg && State() == st
    {
      this.cfg := cfg;
      repoRows := st.repos;
      candidateRows := st.candidates;
      nextCandidateId := st.nextCandidateId;
    }

    // ---------------------------------------------------------------- the stores

    /** `repoRepo.findById(id).orElse(null)`: the stored record as an entity, or null. */
    method FindById(id: int) returns (e: GitHubEntity?)
      ensures e == null <==> id !in repoRows
      ensures e != null ==> fresh(e) && e.Row() == repoRows[id]
    {
      if id in repoRows {
        e := new GitHubEntity.FromRow(repoRows[id]);
      } else {
        e := null;
      }
    }

    /** `repoRepo.save(e)`: the entity's row is stored under its id. */
    method SaveRepo(e: GitHubEntity)
      requires e.id.Some?
      modifies this`repoRows
      ensures repoRows == old(repoRows)[e.id.value := e.Row()]
    {
      repoRows := repoRows[e.id.value := e.Row()];
    }

    /** `candRepo.save(c)` for a new entity: the identity column assigns its id, then the row is appended. */
    method SaveCandidate(c: TrendingCandidateEntity)
      modifies this`candidateRows, this`nextCandidateId, c`id
      ensures c.Row() == old(c.Row()).(id := Some(old(nextCandidateId)))
      ensures candidateRows == old(candidateRows) + [c.Row()]
      ensures nextCandidateId == old(nextCandidateId) + 1
    {
      c.SetId(Some(nextCandidateId));
      nextCandidateId := nextCandidateId + 1;
      candidateRows := candidateRows + [c.Row()];
    }

    // ---------------------------------------------------------------- ingestion steps

    /**
     * `mapMetaToEntity`: the metadata is written into the stored entity, or into a new one,
     * with the baseline rules of first ingestion and of later ones.
     */
    method MapMetaToEntity(meta: Meta, existing: GitHubEntity?) returns (e: GitHubEntity)
      requires meta.id.Some?
      modifies existing
      ensures existing != null ==> e == existing
      ensures existing == null ==> fresh(e)
      ensures e.Row() == MergeMeta(if existing == null then EmptyRepo else old(existing.Row()), meta)
    {
      if existing != null {
        e := existing;
      } else {
        e := new GitHubEntity();
      }
      var prevStarsBefore := e.stargazersCount;

      e.SetId(meta.id);
      e.SetNodeId(meta.nodeId);
      e.SetName(meta.name);
      e.SetFullName(meta.fullName);
      e.SetOwnerLogin(meta.ownerLogin);
      e.SetHtmlUrl(meta.htmlUrl);
      e.SetDescription(meta.description);
      e.SetLanguage(meta.language);
      e.SetStargazersCount(meta.stargazersCount);
      e.SetCreatedAt(meta.createdAt);
      e.SetPushedAt(meta.pushedAt);
      e.SetUpdatedAt(meta.updatedAt);

      if prevStarsBefore.None? && e.stargazersCount.Some? {
        e.SetPreviousStars(e.stargazersCount);
        e.SetGrowthRate(Some(0.0));
        e.SetTrendScore(Some(0.0));
        if e.trendStage.None? {
          e.SetTrendStage(Some(0));
        }
      } else if prevStarsBefore.Some? {
        e.SetPreviousStars(prevStarsBefore);
      }
    }

    /**
     * `fetchAndAttachReadme`, given the answer to the request: `false` when the decoder
     * throws, in which case the entity is left untouched.
     */
    method FetchAndAttachReadme(e: GitHubEntity, resp: ReadmeResponse, decode: Decoder) returns (ok: bool)
      modifies e
      ensures ok <==> ApplyReadme(old(e.Row()), resp, decode).Some?
      ensures ok ==> e.Row() == ApplyReadme(old(e.Row()), resp, decode).value
      ensures !ok ==> e.Row() == old(e.Row())
    {
      var body := ReadmeBodyOf(resp);
      if body.None? {
        return true;
      }
      var b := body.value;
      var text: Option<string> := None;
      if b.content.Some? && IsBase64Label(b.encoding) {
        var decoded := decode(b.content.value);
        if decoded.None? {
          return false;
        }
        text := decoded;
      }
      e.SetReadmeText(text);
      e.SetReadmeSha(b.sha);
      ok := true;
    }

    /**
     * `evaluateTrendAndMaybePromote`: growth, score and stage are computed and stored, the
     * baseline becomes the current count, and a candidate is inserted when the stage has just
     * entered 2 and the repository has none yet.
     */
    method EvaluateTrendAndMaybePromote(e: GitHubEntity, ageDecay: real, now: int)
      modifies this`candidateRows, this`nextCandidateId, e
      ensures var ev := Evaluate(old(e.Row()), cfg, ageDecay, now);
        && e.Row() == ev.repo
        && State() == MaybeAddCandidate(old(State()), ev.repo, ev.promotedTo2Now, now)
    {
      var curr := OrZero(e.stargazersCount);
      var prev := OrZero(e.previousStars);
      var growthRate := GrowthRate(curr, prev);
      var agePenaltyFactor := AgeFactor(cfg, e.createdAt, ageDecay);
      var score := Score(cfg, growthRate, agePenaltyFactor);

      var oldStage := OrZero(e.trendStage);
      var newStage := oldStage;
      if oldStage == 0 || oldStage == 1 {
        if score >= cfg.trendThreshold {
          newStage := if oldStage + 1 < 2 then oldStage + 1 else 2;
        } else if oldStage == 1 {
          newStage := 0;
        }
      }
      var promotedTo2Now := oldStage < 2 && newStage == 2;

      e.SetGrowthRate(Some(growthRate));
      e.SetTrendScore(Some(score));
      e.SetTrendStage(Some(newStage));
      e.SetLastCheckedAt(Some(now));
      e.SetPreviousStars(Some(curr));

      if promotedTo2Now {
        var already := ExistsByRepoId(candidateRows, e.id);
        if !already {
          var c := new TrendingCandidateEntity.Of(e.id, e.fullName, now);
          SaveCandidate(c);
        }
      }
    }

    // ---------------------------------------------------------------- ingestion

    /**
     * The body of `upsertAndEvaluate`. Besides the outcome it returns the row of a stored
     * entity it changed without saving (the merged metadata when the README cannot be
     * decoded): a caller running in its own transaction discards it, the crawl writes it.
     */
    method Upsert(fullName: Option<string>, up: Upstream, decode: Decoder) returns (out: Outcome, unsaved: Option<Repo>)
      modifies this`repoRows, this`candidateRows, this`nextCandidateId
      ensures (out, State()) == Ingest(old(State()), cfg, fullName, up, decode)
      ensures unsaved.Some? ==> unsaved.value.id.Some?
      ensures unsaved == if out == Failed(UndecodableReadme) && up.meta.value.id.value in old(repoRows)
                         then Some(MergeMeta(old(repoRows)[up.meta.value.id.value], up.meta.value))
                         else None
    {
      var parts := SplitFullName(fullName);
      if parts.None? {
        return Failed(InvalidFullName), None;
      }
      if up.meta.None? {
        return NoMetadata, None;
      }
      var meta := up.meta.value;
      if meta.id.None? {
        return Failed(MissingId), None;
      }
      out, unsaved := UpsertRecord(meta, up, decode);
    }

    /** `upsertAndEvaluate` from the lookup of the stored entity on. */
    method UpsertRecord(meta: Meta, up: Upstream, decode: Decoder) returns (out: Outcome, unsaved: Option<Repo>)
      requires meta.id.Some?
      modifies this`repoRows, this`candidateRows, this`nextCandidateId
      ensures (out, State()) == IngestRecord(old(State()), cfg, meta, up, decode)
      ensures unsaved == if out == Failed(UndecodableReadme) && meta.id.value in old(repoRows)
                         then Some(MergeMeta(old(repoRows)[meta.id.value], meta))
                         else None
    {
      unsaved := None;
      ghost var st := State();
      var existing := FindById(meta.id.value);
      var e := MapMetaToEntity(meta, existing);
      ghost var merged := MergeMeta(Existing(st, meta.id.value), meta);
      assert e.Row() == merged;

      var ok := FetchAndAttachReadme(e, up.readme, decode);
      if !ok {
        if existing != null {
          unsaved := Some(e.Row());
        }
        return Failed(UndecodableReadme), unsaved;
      }
      ghost var withReadme := ApplyReadme(merged, up.readme, decode).value;

      EvaluateTrendAndMaybePromote(e, up.ageDecay, up.now);
      ghost var ev := Evaluate(withReadme, cfg, up.ageDecay, up.now);

      e.SetLastCrawledAt(Some(up.now));
      assert e.Row() == ev.repo.(lastCrawledAt := Some(up.now));
      SaveRepo(e);
      out := Saved(e.Row());
    }

    /**
     * `upsertAndEvaluate`: one repository is ingested in its own transaction, so a failure
     * writes nothing.
     */
    method UpsertAndEvaluate(fullName: Option<string>, up: Upstream, decode: Decoder) returns (out: Outcome)
      modifies this`repoRows, this`candidateRows, this`nextCandidateId
      ensures (out, State()) == Ingest(old(State()), cfg, fullName, up, decode)
    {
      var unsaved;
      out, unsaved := Upsert(fullName, up, decode);
    }

    // ---------------------------------------------------------------- dispatch

    /**
     * `getOldestUngivenCandidatesAndMark`: the oldest undispatched candidates (at most `limit`)
     * are marked as given and their repositories returned.
     */
    method GetOldestUngivenCandidatesAndMark(limit: int) returns (result: seq<Repo>)
      requires limit >= 1
      modifies this`candidateRows
      ensures var picks := FindUngivenOldestFirst(old(candidateRows), limit);
        && candidateRows == MarkGiven(old(candidateRows), picks)
        && FoundAllById(repoRows, RepoIdsOf(old(candidateRows), picks), result)
        && (picks == [] ==> result == [] && candidateRows == old(candidateRows))
    {
      var picks := FindUngivenOldestFirst(candidateRows, limit);
      if picks == [] {
        assert MarkGiven(candidateRows, picks) == candidateRows;
        return [];
      }

      var before := candidateRows;
      var i := 0;
      while i < |picks|
        invariant 0 <= i <= |picks|
        invariant candidateRows == MarkGiven(before, picks[..i])
      {
        var c := new TrendingCandidateEntity.FromRow(candidateRows[picks[i]]);
        c.SetGivenToAI(Some(true));
        candidateRows := candidateRows[picks[i] := c.Row()];
        assert candidateRows == MarkGiven(before, picks[..i + 1]) by {
          assert forall k :: k in picks[..i + 1] <==> k in picks[..i] || k == picks[i];
        }
        i := i + 1;
      }
      assert picks[..i] == picks;

      var repoIds := RepoIdsOf(before, picks);
      result := FindAllById(repoRows, repoIds);
    }

    // ---------------------------------------------------------------- the crawl

    /**
     * `crawlAllAndEvaluate`: pages 1 to `maxPages` are requested in turn (`pages[p - 1]` is the
     * answer for page p; past the end every request fails) until one fails or is empty, and
     * every named item is ingested; a failing item is skipped. Returns the number of requests.
     */
    method CrawlAllAndEvaluate(pages: seq<SearchPage>, decode: Decoder) returns (requested: nat)
      modifies this`repoRows, this`candidateRows, this`nextCandidateId
      ensures State() == CrawlAll(old(State()), cfg, pages, decode)
      ensures requested == PagesRequested(pages, cfg.maxPages)
    {
      requested := 0;
      var page := 1;
      while page <= cfg.maxPages
        invariant 1 <= page && (page - 1 <= |pages| || page - 1 <= 0)
        invariant CrawlPages(State(), cfg, Rest(pages, page), cfg.maxPages - page + 1, decode) == CrawlAll(old(State()), cfg, pages, decode)
        invariant requested + PagesRequested(Rest(pages, page), cfg.maxPages - page + 1) == PagesRequested(pages, cfg.maxPages)
      {
        var searchResult: SearchPage := if page - 1 < |pages| then pages[page - 1] else None;
        requested := requested + 1;
        if searchResult.None? || searchResult.value == [] {
          break;
        }
        var items := searchResult.value;
        CrawlPageItems(items, decode);
        assert Rest(pages, page)[1..] == Rest(pages, page + 1);
        page := page + 1;
      }
    }

    /** The inner loop of the crawl: the items of one page, in order. */
    method CrawlPageItems(items: seq<SearchItem>, decode: Decoder)
      modifies this`repoRows, this`candidateRows, this`nextCandidateId
      ensures State() == CrawlItems(old(State()), cfg, items, decode)
    {
      var j := 0;
      while j < |items|
        invariant 0 <= j <= |items|
        invariant CrawlItems(State(), cfg, items[j..], decode) == CrawlItems(old(State()), cfg, items, decode)
      {
        assert items[j..][1..] == items[j + 1..];
        CrawlItemAndCommit(items[j], decode);
        j := j + 1;
      }
    }

    /**
     * One item of the crawl loop: an item without a name is skipped; otherwise the repository
     * is ingested, and if the call failed after changing the stored entity, the change is
     * written when the crawl's transaction commits.
     */
    method CrawlItemAndCommit(item: SearchItem, decode: Decoder)
      modifies this`repoRows, this`candidateRows, this`nextCandidateId
      ensures State() == CrawlItem(old(State()), cfg, item, decode)
    {
      if item.fullName.None? {
        return;
      }
      var out, unsaved := Upsert(item.fullName, item.upstream, decode);
      if unsaved.Some? {
        repoRows := repoRows[unsaved.value.id.value := unsaved.value];
      }
    }
  }

  /** The pages from page `page` on. */
  function Rest(pages: seq<SearchPage>, page: int): (r: seq<SearchPage>)
    ensures |r| == if 1 <= page <= |pages| + 1 then |pages| - page + 1 else 0
  {
    if 1 <= page <= |pages| + 1 then pages[page - 1..] else []
  }
}
