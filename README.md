# Trend-detection engine of the GitHub trend feed, in Dafny

The backend crawls GitHub's repository search every few days. For each repository it
stores a record, reads its star count and README, and scores its growth since the last
crawl. A repository moves through trend stages 0 → 1 → 2; stage 1 falls back to 0 when
the score drops below the threshold. On the crawl where a repository enters stage 2 it
becomes a *trending candidate*. A downstream AI asks for the oldest candidates it has
not yet been given, and the service marks them as given.

This project models that engine: `GitHubService` together with its two records,
`GitHubEntity` and `TrendingCandidateEntity`, and the candidate repository's queries.

* `Nullable`: `Option`, which stands for Java's nullable references.
* `FullName`: `splitFullName`, with the parts of `String.trim` and `split("/", 2)` it uses.
* `Trend`: growth rate, age factor, score and the stage state machine, over exact reals.
* `RepoEntity`, `CandidateEntity`: the two beans as classes whose setters change one field,
  each with the row (a datatype value) that the store keeps for it.
* `CandidateQueries`: `existsByRepoId`, and the undispatched/oldest-first/limit query,
  specified outright and proved by an insertion sort.
* `Ingestion`: one `upsertAndEvaluate` as a function of the stores and of what GitHub answers.
  The stores are the records by id, the candidates in insertion order and the next candidate id.
  It covers merge, README, evaluation, promotion and save, plus the invariants of the stores.
  `IngestionProperties` proves what one ingestion promises.
* `Scenario`: five successive crawls of one repository, worked out to their stages and candidate.
* `Dispatch`: `getOldestUngivenCandidatesAndMark` and `findAllById` as functions, with their properties.
* `Crawl`: `crawlAllAndEvaluate` as a function of the search pages, with its properties.
* `Service`: `GitHubService` as a class. Its fields are the two stores. Its methods work on
  entities through setters and loop over picks, pages and items. Each method is proved
  to end in the state that the functions above describe.

The outside world becomes inputs:
* a search page is `None` when the request failed or had no `items`;
* the metadata body is `None` when it is null;
* a README answer is a status code and an optional body;
* the clock gives `now` and the age decay `0.5^(ageDays / halfLife)`;
* the Base64/UTF-8 decoder is a function that returns `None` when it throws.

Three consequences of the code are easy to miss, and one of them contradicts a comment
in the source:

* The class comment of `GitHubService` (lines 40-42) demotes stage 1 to 0 whenever the
  score is below the threshold. Re-ingesting a repository whose star count did not change
  scores 0, so under any positive threshold a stage-1 repository falls back to 0 on the
  next crawl without new stars (`IngestionProperties.ReingestUnchangedStars`).
* The comment on the merge's existing-record branch (line 320) says it keeps the existing
  `previousStars`, but the code sets it to the star count the record held before the merge.
  The two agree only on a record that has been evaluated
  (`IngestionProperties.MergeKeepsEvaluatedBaseline`).
* The crawl runs in one transaction and calls `upsertAndEvaluate` on itself, so that
  method's own transactional boundary does not apply. A README that cannot be decoded
  throws after the stored entity was merged. The crawl swallows the exception, and the
  merged metadata is still written at commit (`Crawl.UndecodableReadmeKeepsMerge`). A
  direct call rolls back and writes nothing.

## Model

| member | source | states |
|---|---|---|
| FullName.LeadingBlanks | src/main/java/com/trendfeed/backend/service/GitHubService.java:401 | the number of leading characters `String.trim` removes: all of them are at most U+0020 and the next one is not |
| FullName.TrimEnd | src/main/java/com/trendfeed/backend/service/GitHubService.java:401 | a prefix of the input after which only characters at most U+0020 follow, and which does not itself end in one |
| FullName.Trim | src/main/java/com/trendfeed/backend/service/GitHubService.java:401 | `String.trim`: the result is the slice of the input after its leading blanks, with only blanks after it and no blank at either end |
| FullName.FirstIndexOf | src/main/java/com/trendfeed/backend/service/GitHubService.java:400 | the position of the first `/` (or the length when there is none), with no `/` before it |
| FullName.SplitFullName | src/main/java/com/trendfeed/backend/service/GitHubService.java:396-402 | fails exactly when the name is null or has no `/`; otherwise the parts are the trimmed text before the first `/` and the trimmed rest |
| FullName.TrimOfClean | src/main/java/com/trendfeed/backend/service/GitHubService.java:401 | trimming a string with no character at most U+0020 gives it back |
| FullName.SplitThenJoin | src/main/java/com/trendfeed/backend/service/GitHubService.java:396-402 | round trip: for a name with a `/` and no blanks, owner + "/" + repo is the name |
| FullName.OwnerHasNoSlash | src/main/java/com/trendfeed/backend/service/GitHubService.java:400 | the owner part never contains `/` |
| FullName.SplitKeepsLaterSlashes | src/main/java/com/trendfeed/backend/service/GitHubService.java:400-401 | `a/b/c` splits into `a` and `b/c` |
| FullName.SplitTrimsBothHalves | src/main/java/com/trendfeed/backend/service/GitHubService.java:401 | ` o / r ` splits into `o` and `r` |
| FullName.SplitRejectsNoSlash | src/main/java/com/trendfeed/backend/service/GitHubService.java:397-399 | a name without `/`, and a null name, are rejected |
| Trend.OrZero | src/main/java/com/trendfeed/backend/service/GitHubService.java:404-406 | a null count reads as 0, any other as itself |
| Trend.GrowthRate | src/main/java/com/trendfeed/backend/service/GitHubService.java:335-337 | defines growth as (curr - prev) / prev, 0 without a positive baseline; GrowthRateInverse and GrowthRateSign prove it is the fractional change |
| Trend.AgeFactor | src/main/java/com/trendfeed/backend/service/GitHubService.java:340-348 | defines the age factor: 1 for a null creation time or non-positive half-life, else the decay; AgeFactorCases states the three cases |
| Trend.Score | src/main/java/com/trendfeed/backend/service/GitHubService.java:350-353 | defines the score as growth * growthWeight * ageFactor * penaltyWeight; ScoreSign and ZeroGrowthScoresZero relate its sign to the star change |
| Trend.NextStage | src/main/java/com/trendfeed/backend/service/GitHubService.java:355-365 | defines the stage update; StageMoves, AllowedMovesAreTaken, StageMonotone, PromotionIff and StageOneIsTransient characterise it completely on {0,1,2} |
| Trend.GrowthRateInverse | src/main/java/com/trendfeed/backend/service/GitHubService.java:335-337 | with a positive baseline, baseline * (1 + growth) is the current count |
| Trend.GrowthRateSign | src/main/java/com/trendfeed/backend/service/GitHubService.java:335-337 | growth is 0 without a positive baseline; otherwise it is positive iff the stars grew and 0 iff they did not change |
| Trend.GrowthRateExamples | src/main/java/com/trendfeed/backend/service/GitHubService.java:335-337 | 150 stars over a baseline of 100 is growth 0.5; a baseline of 0 gives 0 |
| Trend.AgeFactorCases | src/main/java/com/trendfeed/backend/service/GitHubService.java:340-348 | the age factor is 1 when the creation time is null or the half-life is not positive, the decay otherwise |
| Trend.ScoreSign | src/main/java/com/trendfeed/backend/service/GitHubService.java:350-353 | with positive weights and factor the score is positive iff the stars grew, and 0 iff they did not change |
| Trend.ZeroGrowthScoresZero | src/main/java/com/trendfeed/backend/service/GitHubService.java:350-353 | zero growth scores zero whatever the weights and age |
| Trend.StageMoves | src/main/java/com/trendfeed/backend/service/GitHubService.java:355-365 | from a stage in {0,1,2} the next stage is in {0,1,2} and is one of the moves 0→0, 0→1, 1→0, 1→2, 2→2 |
| Trend.AllowedMovesAreTaken | src/main/java/com/trendfeed/backend/service/GitHubService.java:355-365 | every one of those moves is made for some outcome of the threshold test |
| Trend.StageMonotone | src/main/java/com/trendfeed/backend/service/GitHubService.java:359-365 | passing never lowers the stage, failing never raises it, and stage 2 (and any stage other than 0 and 1) never changes |
| Trend.PromotionIff | src/main/java/com/trendfeed/backend/service/GitHubService.java:368 | the stage enters 2 exactly when it was 1 and the score reached the threshold |
| Trend.StageOneIsTransient | src/main/java/com/trendfeed/backend/service/GitHubService.java:359-365 | stage 1 never stays at 1: it is promoted or demoted |
| RepoEntity.GitHubEntity.constructor | src/main/java/com/trendfeed/backend/entity/GitHubEntity.java:43 | every field is null, star count, baseline and stage included |
| RepoEntity.GitHubEntity.FromRow | src/main/java/com/trendfeed/backend/entity/GitHubEntity.java:8-41 | the entity the store hands back for a row holds exactly that row |
| RepoEntity.GitHubEntity.SetId | src/main/java/com/trendfeed/backend/entity/GitHubEntity.java:47 | `id` (read back by its getter) becomes the argument and no other field changes |
| RepoEntity.GitHubEntity.SetNodeId | src/main/java/com/trendfeed/backend/entity/GitHubEntity.java:50 | `nodeId` (read back by its getter) becomes the argument and no other field changes |
| RepoEntity.GitHubEntity.SetName | src/main/java/com/trendfeed/backend/entity/GitHubEntity.java:53 | `name` (read back by its getter) becomes the argument and no other field changes |
| RepoEntity.GitHubEntity.SetFullName | src/main/java/com/trendfeed/backend/entity/GitHubEntity.java:56 | `fullName` (read back by its getter) becomes the argument and no other field changes |
| RepoEntity.GitHubEntity.SetOwnerLogin | src/main/java/com/trendfeed/backend/entity/GitHubEntity.java:59 | `ownerLogin` (read back by its getter) becomes the argument and no other field changes |
| RepoEntity.GitHubEntity.SetHtmlUrl | src/main/java/com/trendfeed/backend/entity/GitHubEntity.java:62 | `htmlUrl` (read back by its getter) becomes the argument and no other field changes |
| RepoEntity.GitHubEntity.SetDescription | src/main/java/com/trendfeed/backend/entity/GitHubEntity.java:65 | `description` (read back by its getter) becomes the argument and no other field changes |
| RepoEntity.GitHubEntity.SetLanguage | src/main/java/com/trendfeed/backend/entity/GitHubEntity.java:68 | `language` (read back by its getter) becomes the argument and no other field changes |
| RepoEntity.GitHubEntity.SetStargazersCount | src/main/java/com/trendfeed/backend/entity/GitHubEntity.java:71 | `stargazersCount` (read back by its getter) becomes the argument and no other field changes |
| RepoEntity.GitHubEntity.SetCreatedAt | src/main/java/com/trendfeed/backend/entity/GitHubEntity.java:74 | `createdAt` (read back by its getter) becomes the argument and no other field changes |
| RepoEntity.GitHubEntity.SetPushedAt | src/main/java/com/trendfeed/backend/entity/GitHubEntity.java:77 | `pushedAt` (read back by its getter) becomes the argument and no other field changes |
| RepoEntity.GitHubEntity.SetUpdatedAt | src/main/java/com/trendfeed/backend/entity/GitHubEntity.java:80 | `updatedAt` (read back by its getter) becomes the argument and no other field changes |
| RepoEntity.GitHubEntity.SetLastCrawledAt | src/main/java/com/trendfeed/backend/entity/GitHubEntity.java:83 | `lastCrawledAt` (read back by its getter) becomes the argument and no other field changes |
| RepoEntity.GitHubEntity.SetReadmeText | src/main/java/com/trendfeed/backend/entity/GitHubEntity.java:86 | `readmeText` (read back by its getter) becomes the argument and no other field changes |
| RepoEntity.GitHubEntity.SetReadmeSha | src/main/java/com/trendfeed/backend/entity/GitHubEntity.java:89 | `readmeSha` (read back by its getter) becomes the argument and no other field changes |
| RepoEntity.GitHubEntity.SetReadmeEtag | src/main/java/com/trendfeed/backend/entity/GitHubEntity.java:92 | `readmeEtag` (read back by its getter) becomes the argument and no other field changes |
| RepoEntity.GitHubEntity.SetPreviousStars | src/main/java/com/trendfeed/backend/entity/GitHubEntity.java:95 | `previousStars` (read back by its getter) becomes the argument and no other field changes |
| RepoEntity.GitHubEntity.SetGrowthRate | src/main/java/com/trendfeed/backend/entity/GitHubEntity.java:98 | `growthRate` (read back by its getter) becomes the argument and no other field changes |
| RepoEntity.GitHubEntity.SetTrendScore | src/main/java/com/trendfeed/backend/entity/GitHubEntity.java:101 | `trendScore` (read back by its getter) becomes the argument and no other field changes |
| RepoEntity.GitHubEntity.SetTrendStage | src/main/java/com/trendfeed/backend/entity/GitHubEntity.java:104 | `trendStage` (read back by its getter) becomes the argument and no other field changes |
| RepoEntity.GitHubEntity.SetLastCheckedAt | src/main/java/com/trendfeed/backend/entity/GitHubEntity.java:107 | `lastCheckedAt` (read back by its getter) becomes the argument and no other field changes |
| CandidateEntity.TrendingCandidateEntity.constructor | src/main/java/com/trendfeed/backend/entity/TrendingCandidateEntity.java:19 | every field is null |
| CandidateEntity.TrendingCandidateEntity.Of | src/main/java/com/trendfeed/backend/entity/TrendingCandidateEntity.java:21-26 | stores the repository id and name, `promotedAt` is the construction time, `givenToAI` is false and `id` stays null until the store assigns it |
| CandidateEntity.TrendingCandidateEntity.FromRow | src/main/java/com/trendfeed/backend/entity/TrendingCandidateEntity.java:8-17 | the entity the store hands back for a row holds exactly that row |
| CandidateEntity.TrendingCandidateEntity.SetId | src/main/java/com/trendfeed/backend/entity/TrendingCandidateEntity.java:30 | `id` becomes the argument and no other field changes |
| CandidateEntity.TrendingCandidateEntity.SetRepoId | src/main/java/com/trendfeed/backend/entity/TrendingCandidateEntity.java:33 | `repoId` becomes the argument and no other field changes |
| CandidateEntity.TrendingCandidateEntity.SetFullName | src/main/java/com/trendfeed/backend/entity/TrendingCandidateEntity.java:36 | `fullName` becomes the argument and no other field changes |
| CandidateEntity.TrendingCandidateEntity.SetPromotedAt | src/main/java/com/trendfeed/backend/entity/TrendingCandidateEntity.java:39 | `promotedAt` becomes the argument and no other field changes |
| CandidateEntity.TrendingCandidateEntity.SetGivenToAI | src/main/java/com/trendfeed/backend/entity/TrendingCandidateEntity.java:42 | `givenToAI` becomes the argument and no other field changes |
| CandidateQueries.ExistsByRepoId | src/main/java/com/trendfeed/backend/repository/TrendingCandidateRepository.java:11 | true iff some stored candidate has that repository id |
| CandidateQueries.Ungiven | src/main/java/com/trendfeed/backend/repository/TrendingCandidateRepository.java:16 | the query's filter `givenToAI = false`, a null flag not matching; UngivenBelow and FindUngivenOldestFirst are stated with it |
| CandidateQueries.KeyAt | src/main/java/com/trendfeed/backend/repository/TrendingCandidateRepository.java:17 | the sort key `promotedAt` of a position; OldestFirst and FindUngivenOldestFirst order by it (null ordering under Left out) |
| CandidateQueries.InsertByAge | src/main/java/com/trendfeed/backend/repository/TrendingCandidateRepository.java:17 | one insertion step of the ordering; InsertByAgeMultiset and InsertByAgeSorted prove it adds exactly the position and keeps the order |
| CandidateQueries.SortByAge | src/main/java/com/trendfeed/backend/repository/TrendingCandidateRepository.java:17 | orders positions by `promotedAt` ascending; SortByAgeSorted proves the result ordered and a permutation of its input |
| CandidateQueries.UngivenBelow | src/main/java/com/trendfeed/backend/repository/TrendingCandidateRepository.java:15-16 | the positions whose candidate has `givenToAI = false`, all of them and only them, in store order |
| CandidateQueries.InsertByAgeMultiset | src/main/java/com/trendfeed/backend/repository/TrendingCandidateRepository.java:17 | inserting a position into the ordered list adds exactly that position |
| CandidateQueries.InsertByAgeSorted | src/main/java/com/trendfeed/backend/repository/TrendingCandidateRepository.java:17 | inserting into a list ordered by `promotedAt` keeps it ordered |
| CandidateQueries.SortByAgeSorted | src/main/java/com/trendfeed/backend/repository/TrendingCandidateRepository.java:17 | the sort yields a permutation of its input ordered by `promotedAt` ascending |
| CandidateQueries.FindUngivenOldestFirst | src/main/java/com/trendfeed/backend/repository/TrendingCandidateRepository.java:14-24 | at most `limit` distinct undispatched candidates, oldest first; any undispatched one left out is no older than every pick, and only left out when `limit` were picked |
| CandidateQueries.NothingUngivenNothingPicked | src/main/java/com/trendfeed/backend/repository/TrendingCandidateRepository.java:15-16 | with no undispatched candidate the query returns nothing |
| Ingestion.MergeMeta | src/main/java/com/trendfeed/backend/service/GitHubService.java:284-325 | the merge of metadata into a record; MergeFirstIngestion, MergeExistingRecord, MergeKeepsEvaluatedBaseline and MergeOverwritesDisplayFields state each branch, and MapMetaToEntity is proved to compute it |
| Ingestion.IsBase64Label | src/main/java/com/trendfeed/backend/service/GitHubService.java:267 | `"base64".equalsIgnoreCase(encoding)`, null never matching; Base64LabelExamples checks it on matching and non-matching labels |
| Ingestion.IfNoneMatch | src/main/java/com/trendfeed/backend/service/GitHubService.java:229-233 | the `If-None-Match` value sent: the stored etag, if any; IngestKeepsEtag, NoEtagsEver and Crawl.CrawlSetsNoEtag show it is never set |
| Ingestion.ReadmeBodyOf | src/main/java/com/trendfeed/backend/service/GitHubService.java:234-255 | the body the exchange yields: none for 304, 404 and non-2xx; ReadmeNon2xxLeavesCache and ReadmeFailsOnlyOnDecode use it |
| Ingestion.ApplyReadme | src/main/java/com/trendfeed/backend/service/GitHubService.java:225-278 | the README step on a record; ReadmeNon2xxLeavesCache, Readme2xxOverwrites, ReadmeTouchesOnlyTextAndSha, ReadmeFailsOnlyOnDecode and ReadmeWithoutContentClearsText state its cases, and FetchAndAttachReadme is proved to compute it |
| Ingestion.Evaluate | src/main/java/com/trendfeed/backend/service/GitHubService.java:330-376 | the scoring half of the evaluation; EvaluateStoresResults states every stored field, EvaluateStageMoves and PromotedExactlyFromStageOne the stage and the promotion flag |
| Ingestion.MaybeAddCandidate | src/main/java/com/trendfeed/backend/service/GitHubService.java:379-388 | the promotion half: one candidate appended on promotion when none exists for the id; CandidateOnlyOnPromotion and PromotionAddsCandidate give both directions |
| Ingestion.Ingest | src/main/java/com/trendfeed/backend/service/GitHubService.java:157-185 | one `upsertAndEvaluate` on the stores; the IngestionProperties lemmas state its failures, save, candidate and invariant behaviour, and UpsertAndEvaluate is proved to compute it |
| Ingestion.IngestRecord | src/main/java/com/trendfeed/backend/service/GitHubService.java:173-184 | `upsertAndEvaluate` once the metadata and its id are in hand; UpsertRecord is proved to compute it |
| IngestionProperties.MergeFirstIngestion | src/main/java/com/trendfeed/backend/service/GitHubService.java:311-318 | on a record with a null star count and new stars: baseline := new stars, growth and score := 0, stage := 0 only if it was null |
| IngestionProperties.MergeExistingRecord | src/main/java/com/trendfeed/backend/service/GitHubService.java:287-289 | on a record with a star count: baseline := the pre-merge star count; growth, score and stage untouched |
| IngestionProperties.MergeKeepsEvaluatedBaseline | src/main/java/com/trendfeed/backend/service/GitHubService.java:319-322 | on an evaluated record (baseline equal to stars) the merge keeps the stored baseline |
| IngestionProperties.MergeOverwritesDisplayFields | src/main/java/com/trendfeed/backend/service/GitHubService.java:292-309 | id, name, owner, URL, description, language, stars and timestamps come from the metadata; README cache and crawl/check stamps are kept |
| IngestionProperties.ReadmeNon2xxLeavesCache | src/main/java/com/trendfeed/backend/service/GitHubService.java:237-260 | 304, 404 and every other non-2xx answer leave the record unchanged |
| IngestionProperties.Readme2xxOverwrites | src/main/java/com/trendfeed/backend/service/GitHubService.java:262-275 | a 2xx answer overwrites the sha, and the text is non-null iff there is content labelled base64 (any case), then it is the decoded content |
| IngestionProperties.ReadmeTouchesOnlyTextAndSha | src/main/java/com/trendfeed/backend/service/GitHubService.java:274-277 | the README step changes nothing but text and sha, so never the etag |
| IngestionProperties.ReadmeFailsOnlyOnDecode | src/main/java/com/trendfeed/backend/service/GitHubService.java:267-271 | the README step fails only when base64-labelled content cannot be decoded |
| IngestionProperties.ReadmeWithoutContentClearsText | src/main/java/com/trendfeed/backend/service/GitHubService.java:266-275 | a 2xx answer without content clears the cached text |
| IngestionProperties.Base64LabelExamples | src/main/java/com/trendfeed/backend/service/GitHubService.java:267 | `base64`, `BASE64`, `Base64` match; `base-64`, `utf-8` and null do not |
| IngestionProperties.EvaluateStoresResults | src/main/java/com/trendfeed/backend/service/GitHubService.java:370-376 | stores the growth over the old baseline, the score of that growth, `NextStage` of the old stage for that score and the check time; the baseline becomes the current count; identity and README untouched |
| IngestionProperties.EvaluateStageMoves | src/main/java/com/trendfeed/backend/service/GitHubService.java:355-372 | a documented stage stays documented and moves only along the allowed edges |
| IngestionProperties.PromotedExactlyFromStageOne | src/main/java/com/trendfeed/backend/service/GitHubService.java:360-368 | promotion is flagged iff the old stage was 1 and the stored score reached the threshold |
| IngestionProperties.UnchangedStarsDemote | src/main/java/com/trendfeed/backend/service/GitHubService.java:331-365 | unchanged stars give growth and score 0, so under a positive threshold stage 1 falls to 0 and nothing is promoted |
| IngestionProperties.IngestFailureWritesNothing | src/main/java/com/trendfeed/backend/service/GitHubService.java:157-185 | an ingestion that does not save (exception or null metadata) leaves both stores unchanged |
| IngestionProperties.IngestNullIffNoMetadata | src/main/java/com/trendfeed/backend/service/GitHubService.java:169-171 | null is returned iff the name is well formed and the metadata body is null |
| IngestionProperties.IngestSavesUnderId | src/main/java/com/trendfeed/backend/service/GitHubService.java:173-184 | the saved record is stored under its id, other records untouched, stamped with the crawl and check time, baseline = new stars |
| IngestionProperties.IngestAppendsCandidates | src/main/java/com/trendfeed/backend/service/GitHubService.java:379-388 | existing candidates are never changed; at most new ones are appended |
| IngestionProperties.CandidateOnlyOnPromotion | src/main/java/com/trendfeed/backend/service/GitHubService.java:368-388 | a candidate is added only when stage 1 became 2 and none existed for the id; it is undispatched, for that id, promoted now |
| IngestionProperties.PromotionAddsCandidate | src/main/java/com/trendfeed/backend/service/GitHubService.java:368-388 | conversely, a saved ingestion taking a stored stage-1 record to 2 with no candidate for the id appends exactly one: next id, that repo id and name, promoted now, undispatched |
| IngestionProperties.StageTwoIsFrozen | src/main/java/com/trendfeed/backend/service/GitHubService.java:359-388 | a stage-2 record stays at 2 and adds no candidate |
| IngestionProperties.IngestPreservesStoreValid | src/main/java/com/trendfeed/backend/service/GitHubService.java:330-389 | records keyed by id, stages in {0,1,2}, candidate ids assigned and at most one candidate per repository: all preserved |
| IngestionProperties.FirstIngestion | src/main/java/com/trendfeed/backend/service/GitHubService.java:311-365 | a first ingestion gets growth and score 0, baseline = stars, stage 0 under a positive threshold (1 otherwise), and no candidate |
| IngestionProperties.ReingestUnchangedStars | src/main/java/com/trendfeed/backend/service/GitHubService.java:319-365 | re-ingesting unchanged stars: growth and score 0, stage 1 demoted to 0, stages 0 and 2 kept, no candidate, no new record |
| IngestionProperties.IngestKeepsEtag | src/main/java/com/trendfeed/backend/service/GitHubService.java:277 | the saved etag is the stored record's: the engine never sets one |
| IngestionProperties.NoEtagsEver | src/main/java/com/trendfeed/backend/service/GitHubService.java:229-277 | starting without etags, no record ever gets one, so `If-None-Match` is never sent |
| Scenario.StepFromKnown | src/main/java/com/trendfeed/backend/service/GitHubService.java:158-185 | one crawl of a known repository with no README: saved, baseline moved to the new count, stage = next stage of the stored one |
| Scenario.FirstStep | src/main/java/com/trendfeed/backend/service/GitHubService.java:158-185 | the first crawl of a repository stores it at stage 0 with no candidate |
| Scenario.Advance | src/main/java/com/trendfeed/backend/service/GitHubService.java:330-389 | a crawl that does not reach stage 2 leaves one record at the new count and stage, and no candidate |
| Scenario.FirstThreeCrawls | src/main/java/com/trendfeed/backend/service/GitHubService.java:330-389 | 1000, 1300, 1301 stars: stages 0, 1, 0 (the third crawl demotes) |
| Scenario.LastTwoCrawls | src/main/java/com/trendfeed/backend/service/GitHubService.java:330-389 | then 1700, 2200 stars: stages 1, 2 and exactly one candidate, undispatched |
| Scenario.FiveCrawls | src/main/java/com/trendfeed/backend/service/GitHubService.java:330-389 | the five crawls end with the one candidate `acme/rocket`, id 1, promoted at the fifth crawl |
| Dispatch.MarkGiven | src/main/java/com/trendfeed/backend/service/GitHubService.java:205-208 | the picked rows get `givenToAI = true`, every other row is unchanged |
| Dispatch.FoundAllByIdStep | src/main/java/com/trendfeed/backend/service/GitHubService.java:215 | resolving one more id adds its stored record, if any |
| Dispatch.FindAllById | src/main/java/com/trendfeed/backend/service/GitHubService.java:215 | every returned record is stored under one of the ids and every stored id's record is returned |
| Dispatch.RepoIdsOf | src/main/java/com/trendfeed/backend/service/GitHubService.java:211-213 | the repository ids of the picks, in pick order |
| Dispatch.DispatchedNeverReturnedAgain | src/main/java/com/trendfeed/backend/service/GitHubService.java:198-208 | a dispatched candidate is never picked by a later call, whatever its limit |
| Dispatch.MarkGivenMonotone | src/main/java/com/trendfeed/backend/service/GitHubService.java:205-207 | the flag only goes to true and nothing but the flag changes |
| Dispatch.NothingToDispatch | src/main/java/com/trendfeed/backend/service/GitHubService.java:198-202 | with nothing undispatched, nothing is picked or written |
| Dispatch.MarkGivenPreservesStoreValid | src/main/java/com/trendfeed/backend/service/GitHubService.java:205-208 | marking keeps the stores well formed |
| Crawl.CrawlItem | src/main/java/com/trendfeed/backend/service/GitHubService.java:140-150 | one item of the crawl, the commit-time write of an unsaved merge included; CrawlItemAndCommit is proved to compute it |
| Crawl.CrawlItems | src/main/java/com/trendfeed/backend/service/GitHubService.java:140-150 | the items of one page in order; CrawlItemsSequential, SkipsItemWithoutName and the preservation lemmas are about it, and CrawlPageItems computes it |
| Crawl.CrawlPages | src/main/java/com/trendfeed/backend/service/GitHubService.java:110-138 | pages until a failed or empty one or the page budget runs out; StopsAtFirstEmptyPage and CrawlPreservesStoreValid are about it |
| Crawl.PagesRequested | src/main/java/com/trendfeed/backend/service/GitHubService.java:110-138 | the number of search requests made; AtMostMaxPages bounds it by `maxPages` |
| Crawl.CrawlAll | src/main/java/com/trendfeed/backend/service/GitHubService.java:101-152 | the whole crawl from page 1 with `maxPages`; CrawlAllAndEvaluate is proved to compute it |
| Crawl.AtMostMaxPages | src/main/java/com/trendfeed/backend/service/GitHubService.java:110 | at most `maxPages` search requests, none when it is not positive, at least one otherwise |
| Crawl.StopsAtFirstEmptyPage | src/main/java/com/trendfeed/backend/service/GitHubService.java:130-138 | nothing after the first failed or empty page is read |
| Crawl.SkipsItemWithoutName | src/main/java/com/trendfeed/backend/service/GitHubService.java:141-142 | an item without `full_name` is skipped and the following items are still crawled |
| Crawl.CrawlItemsSequential | src/main/java/com/trendfeed/backend/service/GitHubService.java:140-150 | items are crawled one after another whatever the earlier ones ended in |
| Crawl.UndecodableReadmeKeepsMerge | src/main/java/com/trendfeed/backend/service/GitHubService.java:100-185 | in the crawl, a README that cannot be decoded still leaves the merged metadata of a stored repository written, with no evaluation, stamp or candidate |
| Crawl.UndecodableReadmeOfNewRepoWritesNothing | src/main/java/com/trendfeed/backend/service/GitHubService.java:144-177 | for a repository not yet stored, that failure writes nothing |
| Crawl.CrawlItemPreservesStoreValid | src/main/java/com/trendfeed/backend/service/GitHubService.java:140-150 | one item keeps the stores well formed, the flushed merge included |
| Crawl.CrawlItemsPreservesStoreValid | src/main/java/com/trendfeed/backend/service/GitHubService.java:140-150 | a page of items keeps the stores well formed |
| Crawl.CrawlPreservesStoreValid | src/main/java/com/trendfeed/backend/service/GitHubService.java:101-152 | the crawl keeps the stores well formed, so no repository ever gets a second candidate |
| Crawl.CrawlItemAppendsCandidates | src/main/java/com/trendfeed/backend/service/GitHubService.java:140-150 | one item only appends candidates |
| Crawl.CrawlItemsAppendCandidates | src/main/java/com/trendfeed/backend/service/GitHubService.java:140-150 | a page only appends candidates; existing ones and their flags never change |
| Crawl.CrawlItemSetsNoEtag | src/main/java/com/trendfeed/backend/service/GitHubService.java:140-150 | one crawl item, a flushed merge included, never stores an etag |
| Crawl.CrawlItemsSetNoEtag | src/main/java/com/trendfeed/backend/service/GitHubService.java:140-150 | a page of items never stores an etag |
| Crawl.CrawlSetsNoEtag | src/main/java/com/trendfeed/backend/service/GitHubService.java:101-152 | starting without etags, the crawl never stores one, so `If-None-Match` is never sent |
| Service.GitHubService.constructor | src/main/java/com/trendfeed/backend/service/GitHubService.java:86-94 | the service starts from the given settings and stores |
| Service.GitHubService.FindById | src/main/java/com/trendfeed/backend/service/GitHubService.java:173 | null iff no record is stored under the id, else an entity holding the stored row |
| Service.GitHubService.SaveRepo | src/main/java/com/trendfeed/backend/service/GitHubService.java:184 | the entity's row is stored under its id, nothing else changes |
| Service.GitHubService.SaveCandidate | src/main/java/com/trendfeed/backend/service/GitHubService.java:386 | the identity column gives the candidate the next id and its row is appended |
| Service.GitHubService.MapMetaToEntity | src/main/java/com/trendfeed/backend/service/GitHubService.java:284-325 | the entity (the stored one, or a new one) ends holding `MergeMeta` of its old row and the metadata |
| Service.GitHubService.FetchAndAttachReadme | src/main/java/com/trendfeed/backend/service/GitHubService.java:225-278 | succeeds iff `ApplyReadme` does and the entity then holds its result; on failure the entity is untouched |
| Service.GitHubService.EvaluateTrendAndMaybePromote | src/main/java/com/trendfeed/backend/service/GitHubService.java:330-389 | the entity holds `Evaluate` of its old row and the candidate store is `MaybeAddCandidate` of the old one |
| Service.GitHubService.Upsert | src/main/java/com/trendfeed/backend/service/GitHubService.java:158-185 | outcome and stores are those of `Ingest`; the merged row of a stored entity is handed back exactly when the README fails |
| Service.GitHubService.UpsertRecord | src/main/java/com/trendfeed/backend/service/GitHubService.java:173-184 | outcome and stores are those of `IngestRecord`; same handing back of the unsaved merge |
| Service.GitHubService.UpsertAndEvaluate | src/main/java/com/trendfeed/backend/service/GitHubService.java:157-185 | outcome and stores are those of `Ingest` |
| Service.GitHubService.GetOldestUngivenCandidatesAndMark | src/main/java/com/trendfeed/backend/service/GitHubService.java:190-216 | the candidate store becomes `MarkGiven` of the oldest picks and the result holds their repositories; no picks, no writes and an empty result |
| Service.GitHubService.CrawlAllAndEvaluate | src/main/java/com/trendfeed/backend/service/GitHubService.java:99-152 | the stores end as `CrawlAll` of the old ones and the number of search requests is `PagesRequested` |
| Service.GitHubService.CrawlPageItems | src/main/java/com/trendfeed/backend/service/GitHubService.java:140-150 | the stores end as `CrawlItems` of the page |
| Service.GitHubService.CrawlItemAndCommit | src/main/java/com/trendfeed/backend/service/GitHubService.java:141-149 | the stores end as `CrawlItem`, including the write of an unsaved merge at commit |

## Left out

- HTTP: the search, `/repos` and `/readme` requests are inputs, as are the query parameters (`q`, `per_page`, `sort`). A metadata request that throws, instead of returning a null body, writes nothing as well. It is modelled as the null body, except that `upsertAndEvaluate` then returns null instead of throwing. A transport failure of the README request is not modelled.
- The `If-None-Match` header is modelled only as the value it would carry (`Ingestion.IfNoneMatch`), because the README answer is an input.
- Base64 and UTF-8 decoding belong to the Java library. They are a parameter that may fail, so which content fails to decode is not modelled.
- Floating point: growth, score and weights are exact reals, so double rounding is not modelled. The age decay `Math.pow(0.5, ageDays / halfLife)` and the day count `ChronoUnit.DAYS.between` are one input per ingestion.
- The clock: one `now` per ingestion stamps `lastCheckedAt`, `lastCrawledAt` and the candidate's `promotedAt`. The source reads the clock separately for each. Timestamps are integers, so `parseTime` and ISO date formatting are not modelled.
- Trend.OrZero and the star count: Java's `Integer` width and `Number.intValue()` truncation are not modelled, because counts are unbounded integers.
- Spring: `@Scheduled`, `@Value` injection (an immutable `Config`, defaults in `Trend.DefaultConfig`), `Thread.sleep` between items and concurrency are not modelled; there is one sequential caller. `@Transactional` is modelled only as far as it decides what a failure writes.
- JPA: the stores are a map and a sequence. Entities are loaded as fresh copies (`FindById`, `TrendingCandidateEntity.FromRow`), so aliasing inside the persistence context is not modelled. `saveAll` writes each marked row back where it was read.
- CandidateQueries.KeyAt: a null `promotedAt` sorts as 0, whereas the database's null ordering depends on its vendor. Rows the service creates always carry one. Among equal `promotedAt` values, `FindUngivenOldestFirst` picks in store order; the database promises no order there.
- Dispatch.FindAllById: it returns records in the order of the ids. `findAllById` promises no order, so the contract states only which records are returned.
- The controller is REST wiring. Its clamp of `limit` to at least 1 (`src/main/java/com/trendfeed/backend/controller/GitHubController.java:47`) is the precondition of `GetOldestUngivenCandidatesAndMark`.
- The mail and topic notification services, controllers and entities share no state with the engine and are not part of this model.
- Getters are field reads of the classes' fields and have no members of their own.
