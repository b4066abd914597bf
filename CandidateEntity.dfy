/**
 * The candidate record (TrendingCandidateEntity): one promotion of a repository to stage 2,
 * waiting to be handed to the downstream analysis.
 */
module CandidateEntity {
  import opened Nullable

  /** The persisted row of a TrendingCandidateEntity. */
  datatype Candidate = Candidate(id: Option<int>, repoId: Option<int>, fullName: Option<string>, promotedAt: Option<int>, givenToAI: Option<bool>)

  class TrendingCandidateEntity {
    var id: Option<int>
    var repoId: Option<int>
    var fullName: Option<string>
    var promotedAt: Option<int>
    var givenToAI: Option<bool>

    function Row(): Candidate
      reads this
    {
      Candidate(id, repoId, fullName, promotedAt, givenToAI)
    }

    /** The no-argument constructor JPA uses: every field null. */
    constructor ()
      ensures Row() == Candidate(None, None, None, None, None)
    {
      id := None; repoId := None; fullName := None; promotedAt := None; givenToAI := None;
    }

    /**
     * `new TrendingCandidateEntity(repoId, fullName)`: not yet dispatched, promoted at the
     * construction time `now`; `id` stays null until the store assigns one.
     */
    constructor Of(repoId: Option<int>, fullName: Option<string>, now: int)
      ensures Row() == Candidate(None, repoId, fullName, Some(now), Some(false))
    {
      this.id := None;
      this.repoId := repoId;
      this.fullName := fullName;
      this.promotedAt := Some(now);
      this.givenToAI := Some(false);
    }

    /** The entity the store hands back for a persisted row. */
    constructor FromRow(c: Candidate)
      ensures Row() == c
    {
      id := c.id; repoId := c.repoId; fullName := c.fullName; promotedAt := c.promotedAt; givenToAI := c.givenToAI;
    }

    method SetId(v: Option<int>)
      modifies this`id
      ensures id == v
      ensures Row() == old(Row()).(id := v)
    {
      id := v;
    }

    method SetRepoId(v: Option<int>)
      modifies this`repoId
      ensures repoId == v
      ensures Row() == old(Row()).(repoId := v)
    {
      repoId := v;
    }

    method SetFullName(v: Option<string>)
      modifies this`fullName
      ensures fullName == v
      ensures Row() == old(Row()).(fullName := v)
    {
      fullName := v;
    }

    method SetPromotedAt(v: Option<int>)
      modifies this`promotedAt
      ensures promotedAt == v
      ensures Row() == old(Row()).(promotedAt := v)
    {
      promotedAt := v;
    }

    method SetGivenToAI(v: Option<bool>)
      modifies this`givenToAI
      ensures givenToAI == v
      ensures Row() == old(Row()).(givenToAI := v)
    {
      givenToAI := v;
    }
  }
}
