/**
 * The repository trend record (GitHubEntity): a mutable bean whose every field may be null.
 * Timestamps are instants as integers; `growthRate` and `trendScore` are reals.
 */
module RepoEntity {
  import opened Nullable

  /** The persisted row of a GitHubEntity: the value the store keeps under `id`. */
  datatype Repo = Repo(
    id: Option<int>,
    nodeId: Option<string>,
    name: Option<string>,
    fullName: Option<string>,
    ownerLogin: Option<string>,
    htmlUrl: Option<string>,
    description: Option<string>,
    language: Option<string>,
    stargazersCount: Option<int>,
    createdAt: Option<int>,
    pushedAt: Option<int>,
    updatedAt: Option<int>,
    lastCrawledAt: Option<int>,
    readmeText: Option<string>,
    readmeSha: Option<string>,
    readmeEtag: Option<string>,
    previousStars: Option<int>,
    growthRate: Option<real>,
    trendScore: Option<real>,
    trendStage: Option<int>,
    lastCheckedAt: Option<int>)

  /** The row of a freshly constructed entity: every field null. */
  const EmptyRepo := Repo(None, None, None, None, None, None, None, None, None, None, None, None, None, None, None, None, None, None, None, None, None)

  /** `trendStage` is documented to hold 0, 1 or 2 (or be null before the first evaluation). */
  predicate StageDocumented(r: Repo) {
    r.trendStage.None? || 0 <= r.trendStage.value <= 2
  }

  class GitHubEntity {
    var id: Option<int>
    var nodeId: Option<string>
    var name: Option<string>
    var fullName: Option<string>
    var ownerLogin: Option<string>
    var htmlUrl: Option<string>
    var description: Option<string>
    var language: Option<string>
    var stargazersCount: Option<int>
    var createdAt: Option<int>
    var pushedAt: Option<int>
    var updatedAt: Option<int>
    var lastCrawledAt: Option<int>
    var readmeText: Option<string>
    var readmeSha: Option<string>
    var readmeEtag: Option<string>
    var previousStars: Option<int>
    var growthRate: Option<real>
    var trendScore: Option<real>
    var trendStage: Option<int>
    var lastCheckedAt: Option<int>

    /** The entity's fields as a row. */
    function Row(): Repo
      reads this
    {
      Repo(id, nodeId, name, fullName, ownerLogin, htmlUrl, description, language, stargazersCount, createdAt, pushedAt, updatedAt, lastCrawledAt, readmeText, readmeSha, readmeEtag, previousStars, growthRate, trendScore, trendStage, lastCheckedAt)
    }

    /** `new GitHubEntity()`: nothing is set, which is how first ingestion is recognised. */
    constructor ()
      ensures Row() == EmptyRepo
      ensures stargazersCount.None? && previousStars.None? && trendStage.None?
    {

      id := None; nodeId := None; name := None; fullName := None; ownerLogin := None; htmlUrl := None; description := None;
      language := None; stargazersCount := None; createdAt := None; pushedAt := None; updatedAt := None; lastCrawledAt := None; readmeText := None;
      readmeSha := None; readmeEtag := None; previousStars := None; growthRate := None; trendScore := None; trendStage := None; lastCheckedAt := None;
    }

    /** The entity the store hands back for a persisted row (`findById`). */
    constructor FromRow(r: Repo)
      ensures Row() == r
    {
      id := r.id;
      nodeId := r.nodeId;
      name := r.name;
      fullName := r.fullName;
      ownerLogin := r.ownerLogin;
      htmlUrl := r.htmlUrl;
      description := r.description;
      language := r.language;
      stargazersCount := r.stargazersCount;
      createdAt := r.createdAt;
      pushedAt := r.pushedAt;
      updatedAt := r.updatedAt;
      lastCrawledAt := r.lastCrawledAt;
      readmeText := r.readmeText;
      readmeSha := r.readmeSha;
      readmeEtag := r.readmeEtag;
      previousStars := r.previousStars;
      growthRate := r.growthRate;
      trendScore := r.trendScore;
      trendStage := r.trendStage;
      lastCheckedAt := r.lastCheckedAt;
    }

    method SetId(v: Option<int>)
      modifies this`id
      ensures id == v
      ensures Row() == old(Row()).(id := v)
    {
      id := v;
    }

    method SetNodeId(v: Option<string>)
      modifies this`nodeId
      ensures nodeId == v
      ensures Row() == old(Row()).(nodeId := v)
    {
      nodeId := v;
    }

    method SetName(v: Option<string>)
      modifies this`name
      ensures name == v
      ensures Row() == old(Row()).(name := v)
    {
      name := v;
    }

    method SetFullName(v: Option<string>)
      modifies this`fullName
      ensures fullName == v
      ensures Row() == old(Row()).(fullName := v)
    {
      fullName := v;
    }

    method SetOwnerLogin(v: Option<string>)
      modifies this`ownerLogin
      ensures ownerLogin == v
      ensures Row() == old(Row()).(ownerLogin := v)
    {
      ownerLogin := v;
    }

    method SetHtmlUrl(v: Option<string>)
      modifies this`htmlUrl
      ensures htmlUrl == v
      ensures Row() == old(Row()).(htmlUrl := v)
    {
      htmlUrl := v;
    }

    method SetDescription(v: Option<string>)
      modifies this`description
      ensures description == v
      ensures Row() == old(Row()).(description := v)
    {
      description := v;
    }

    method SetLanguage(v: Option<string>)
      modifies this`language
      ensures language == v
      ensures Row() == old(Row()).(language := v)
    {
      language := v;
    }

    method SetStargazersCount(v: Option<int>)
      modifies this`stargazersCount
      ensures stargazersCount == v
      ensures Row() == old(Row()).(stargazersCount := v)
    {
      stargazersCount := v;
    }

    method SetCreatedAt(v: Option<int>)
      modifies this`createdAt
      ensures createdAt == v
      ensures Row() == old(Row()).(createdAt := v)
    {
      createdAt := v;
    }

    method SetPushedAt(v: Option<int>)
      modifies this`pushedAt
      ensures pushedAt == v
      ensures Row() == old(Row()).(pushedAt := v)
    {
      pushedAt := v;
    }

    method SetUpdatedAt(v: Option<int>)
      modifies this`updatedAt
      ensures updatedAt == v
      ensures Row() == old(Row()).(updatedAt := v)
    {
      updatedAt := v;
    }

    method SetLastCrawledAt(v: Option<int>)
      modifies this`lastCrawledAt
      ensures lastCrawledAt == v
      ensures Row() == old(Row()).(lastCrawledAt := v)
    {
      lastCrawledAt := v;
    }

    method SetReadmeText(v: Option<string>)
      modifies this`readmeText
      ensures readmeText == v
      ensures Row() == old(Row()).(readmeText := v)
    {
      readmeText := v;
    }

    method SetReadmeSha(v: Option<string>)
      modifies this`readmeSha
      ensures readmeSha == v
      ensures Row() == old(Row()).(readmeSha := v)
    {
      readmeSha := v;
    }

    method SetReadmeEtag(v: Option<string>)
      modifies this`readmeEtag
      ensures readmeEtag == v
      ensures Row() == old(Row()).(readmeEtag := v)
    {
      readmeEtag := v;
    }

    method SetPreviousStars(v: Option<int>)
      modifies this`previousStars
      ensures previousStars == v
      ensures Row() == old(Row()).(previousStars := v)
    {
      previousStars := v;
    }

    method SetGrowthRate(v: Option<real>)
      modifies this`growthRate
      ensures growthRate == v
      ensures Row() == old(Row()).(growthRate := v)
    {
      growthRate := v;
    }

    method SetTrendScore(v: Option<real>)
      modifies this`trendScore
      ensures trendScore == v
      ensures Row() == old(Row()).(trendScore := v)
    {
      trendScore := v;
    }

    method SetTrendStage(v: Option<int>)
      modifies this`trendStage
      ensures trendStage == v
      ensures Row() == old(Row()).(trendStage := v)
    {
      trendStage := v;
    }

    method SetLastCheckedAt(v: Option<int>)
      modifies this`lastCheckedAt
      ensures lastCheckedAt == v
      ensures Row() == old(Row()).(lastCheckedAt := v)
    {
      lastCheckedAt := v;
    }
  }
}
