/**
 * One ingestion (GitHubService.upsertAndEvaluate) as a function of the stored state and of what
 * the platform answers: split the name, take the metadata, merge it into the stored record,
 * apply the README response, evaluate the trend, stamp `lastCrawledAt` and save.
 */
module Ingestion {
  import opened Nullable
  import opened FullName
  import opened Trend
  import opened RepoEntity
  import opened CandidateEntity
  import opened CandidateQueries

  /** The fields of the `/repos/{owner}/{repo}` body the merge reads (`owner.login` already resolved). */
  datatype Meta = Meta(
    id: Option<int>,
    nodeId: Option<string>,
    name: Option<string>,
    fullName: Option<string>,
    ownerLogin: Option<string>,
    htmlUrl: Option<string>,
    description: Option<string>,
    language: Option<string>,
    stargazersCount: Option<int>,
    createdAt: Option<int>,
    pushedAt: Option<int>,
    updatedAt: Option<int>)

  /** The `content`, `encoding` and `sha` fields of a `/readme` body. */
  datatype ReadmeBody = ReadmeBody(content: Option<string>, encoding: Option<string>, sha: Option<string>)

  /** A `/readme` answer: the status code and the body, if one was sent. */
  datatype ReadmeResponse = ReadmeResponse(status: int, body: Option<ReadmeBody>)

  /**
   * What the outside world contributes to one ingestion: the metadata body (null when absent),
   * the README answer, the age decay 0.5^(ageDays / halfLife) the clock yields, and the time.
   */
  datatype Upstream = Upstream(meta: Option<Meta>, readme: ReadmeResponse, ageDecay: real, now: int)

  /** Base64 followed by UTF-8 decoding; `None` when the decoder throws. */
  type Decoder = string -> Option<string>

  /**
   * The two stores: repository rows keyed by id, candidate rows in insertion order, and
   * the identity generator's next candidate id.
   */
  datatype Store = Store(repos: map<int, Repo>, candidates: seq<Candidate>, nextCandidateId: int)

  datatype IngestError = InvalidFullName | MissingId | UndecodableReadme

  /** What `upsertAndEvaluate` ends in: the saved record, `null`, or an exception. */
  datatype Outcome = Saved(repo: Repo) | NoMetadata | Failed(error: IngestError)

  // ---------------------------------------------------------------- store invariants

  /** Every repository row is stored under its own id. */
  ghost predicate KeyedById(repos: map<int, Repo>) {
    forall id :: id in repos ==> repos[id].id == Some(id)
  }

  /** At most one candidate per repository id. */
  ghost predicate UniqueRepoIds(cands: seq<Candidate>) {
    forall i, j :: 0 <= i < j < |cands| ==> cands[i].repoId != cands[j].repoId
  }

  /** Candidate ids come from the identity generator: assigned, increasing, below the next one. */
  ghost predicate IdsAssigned(cands: seq<Candidate>, next: int) {
    && (forall i :: 0 <= i < |cands| ==> cands[i].id.Some? && cands[i].id.value < next)
    && (forall i, j :: 0 <= i < j < |cands| ==> cands[i].id.value < cands[j].id.value)
  }

  /** Every stored stage is one of the documented 0, 1, 2. */
  ghost predicate StagesDocumented(repos: map<int, Repo>) {
    forall id :: id in repos ==> StageDocumented(repos[id])
  }

  ghost predicate StoreValid(st: Store) {
    && KeyedById(st.repos)
    && UniqueRepoIds(st.candidates)
    && IdsAssigned(st.candidates, st.nextCandidateId)
    && StagesDocumented(st.repos)
  }

  // ---------------------------------------------------------------- merge

  /**
   * `mapMetaToEntity`: overwrite the display fields, star count and platform timestamps;
   * a record without a star count is being ingested for the first time and gets
   * its baseline, zero growth and score, and stage 0 unless it already had one;
   * a record with a star count keeps that count (its value before the merge) as baseline.
   */
  function MergeMeta(e: Repo, m: Meta): Repo
    requires m.id.Some?
  {
    var prevStarsBefore := e.stargazersCount;
    var d := e.(id := m.id, nodeId := m.nodeId, name := m.name, fullName := m.fullName,
                ownerLogin := m.ownerLogin, htmlUrl := m.htmlUrl, description := m.description,
                language := m.language, stargazersCount := m.stargazersCount,
                createdAt := m.createdAt, pushedAt := m.pushedAt, updatedAt := m.updatedAt);
    if prevStarsBefore.None? && d.stargazersCount.Some? then
      d.(previousStars := d.stargazersCount, growthRate := Some(0.0), trendScore := Some(0.0),
         trendStage := if d.trendStage.None? then Some(0) else d.trendStage)
    else if prevStarsBefore.Some? then
      d.(previousStars := prevStarsBefore)
    else
      d
  }

  // ---------------------------------------------------------------- README

  /**
   * Java's `toUpperCase`, as far as it matters for comparing with the ASCII text "base64":
   * ASCII letters, and U+017F (long s), which upper-cases to 'S'.
   */
  function UpperCase(c: char): char {
    if 'a' <= c <= 'z' then (c as int - 32) as char
    else if c == 'ſ' then 'S'
    else c
  }

  /** `"base64".equalsIgnoreCase(encoding)`; a null encoding never matches. */
  predicate IsBase64Label(encoding: Option<string>) {
    && encoding.Some?
    && |encoding.value| == |"base64"|
    && forall i :: 0 <= i < |"base64"| ==> UpperCase(encoding.value[i]) == UpperCase("base64"[i])
  }

  /** The `If-None-Match` header value: sent only when an etag is stored. */
  function IfNoneMatch(e: Repo): Option<string> {
    e.readmeEtag
  }

  /** The body the exchange yields: none for 304, 404 and every other non-2xx status. */
  function ReadmeBodyOf(resp: ReadmeResponse): Option<ReadmeBody> {
    if resp.status == 304 then None
    else if resp.status == 404 then None
    else if 200 <= resp.status < 300 then resp.body
    else None
  }

  /**
   * `fetchAndAttachReadme`: without a body the cache is left as it is; with one, the text
   * becomes the decoded content when it is labelled base64 and null otherwise, and the sha
   * is overwritten. The etag is never written. `None` when the decoder throws.
   */
  function ApplyReadme(e: Repo, resp: ReadmeResponse, decode: Decoder): Option<Repo> {
    match ReadmeBodyOf(resp)
    case None => Some(e)
    case Some(b) =>
      if b.content.Some? && IsBase64Label(b.encoding) then
        match decode(b.content.value)
        case None => None
        case Some(text) => Some(e.(readmeText := Some(text), readmeSha := b.sha))
      else
        Some(e.(readmeText := None, readmeSha := b.sha))
  }

  // ---------------------------------------------------------------- evaluation

  /** The evaluated record and whether the stage has just entered 2. */
  datatype Evaluation = Evaluation(repo: Repo, promotedTo2Now: bool)

  /**
   * The scoring half of `evaluateTrendAndMaybePromote`: growth, score and the next stage are
   * stored and the current star count becomes the next baseline.
   */
  function Evaluate(e: Repo, cfg: Config, ageDecay: real, now: int): Evaluation {
    var curr := OrZero(e.stargazersCount);
    var prev := OrZero(e.previousStars);
    var growth := GrowthRate(curr, prev);
    var score := Score(cfg, growth, AgeFactor(cfg, e.createdAt, ageDecay));
    var oldStage := OrZero(e.trendStage);
    var newStage := NextStage(oldStage, score >= cfg.trendThreshold);
    Evaluation(
      e.(growthRate := Some(growth), trendScore := Some(score), trendStage := Some(newStage),
         lastCheckedAt := Some(now), previousStars := Some(curr)),
      oldStage < 2 && newStage == 2)
  }

  /** The candidate `save` stores: constructed for the record, then given the next identity. */
  function NewCandidate(st: Store, e: Repo, now: int): Candidate {
    Candidate(Some(st.nextCandidateId), e.id, e.fullName, Some(now), Some(false))
  }

  /** The promotion half: a candidate is inserted on entering stage 2 unless one exists for the id. */
  function MaybeAddCandidate(st: Store, e: Repo, promoted: bool, now: int): Store {
    if promoted && !ExistsByRepoId(st.candidates, e.id) then
      st.(candidates := st.candidates + [NewCandidate(st, e, now)],
          nextCandidateId := st.nextCandidateId + 1)
    else st
  }

  // ---------------------------------------------------------------- the pipeline

  /** The stored record for `id`, or a new entity's row. */
  function Existing(st: Store, id: int): Repo {
    if id in st.repos then st.repos[id] else EmptyRepo
  }

  /**
   * `upsertAndEvaluate`. Every failure happens before anything is written, so a failed
   * ingestion leaves both stores as they were.
   */
  function Ingest(st: Store, cfg: Config, fullName: Option<string>, up: Upstream, decode: Decoder): (Outcome, Store)
  {
    if SplitFullName(fullName).None? then (Failed(InvalidFullName), st)
    else if up.meta.None? then (NoMetadata, st)
    else if up.meta.value.id.None? then (Failed(MissingId), st)
    else IngestRecord(st, cfg, up.meta.value, up, decode)
  }

  /** `upsertAndEvaluate` once the metadata, with its id, is in hand: merge, README, evaluation, save. */
  function IngestRecord(st: Store, cfg: Config, m: Meta, up: Upstream, decode: Decoder): (Outcome, Store)
    requires m.id.Some?
  {
    var id := m.id.value;
    var merged := MergeMeta(Existing(st, id), m);
    match ApplyReadme(merged, up.readme, decode)
    case None => (Failed(UndecodableReadme), st)
    case Some(withReadme) =>
      var ev := Evaluate(withReadme, cfg, up.ageDecay, up.now);
      var st1 := MaybeAddCandidate(st, ev.repo, ev.promotedTo2Now, up.now);
      var saved := ev.repo.(lastCrawledAt := Some(up.now));
      (Saved(saved), st1.(repos := st1.repos[id := saved]))
  }
}
