/**
 * The candidate dispatcher (GitHubService.getOldestUngivenCandidatesAndMark) as a function of
 * the stores: take the oldest undispatched picks, flip their flag, resolve their repositories.
 */
module Dispatch {
  import opened Nullable
  import opened RepoEntity
  import opened CandidateEntity
  import opened CandidateQueries
  import opened Ingestion

  /** The candidate store after `setGivenToAI(true)` on every pick and `saveAll`. */
  function MarkGiven(cands: seq<Candidate>, picks: seq<nat>): (r: seq<Candidate>)
    ensures |r| == |cands|
    ensures forall k :: 0 <= k < |cands| && k in picks ==> r[k] == cands[k].(givenToAI := Some(true))
    ensures forall k :: 0 <= k < |cands| && k !in picks ==> r[k] == cands[k]
  {
    seq(|cands|, k requires 0 <= k < |cands| => if k in picks then cands[k].(givenToAI := Some(true)) else cands[k])
  }

  /**
   * What `findAllById(ids)` promises: every returned record is stored under one of the ids, and
   * every id that is stored has its record returned; neither order nor multiplicity is promised.
   */
  ghost predicate FoundAllById(repos: map<int, Repo>, ids: seq<Option<int>>, result: seq<Repo>) {
    && (forall i :: 0 <= i < |result| ==> StoredUnderOneOf(repos, ids, result[i]))
    && (forall j :: 0 <= j < |ids| && ids[j].Some? && ids[j].value in repos ==> repos[ids[j].value] in result)
  }

  /** `r` is the stored record of one of the ids. */
  ghost predicate StoredUnderOneOf(repos: map<int, Repo>, ids: seq<Option<int>>, r: Repo) {
    exists j :: 0 <= j < |ids| && ids[j].Some? && ids[j].value in repos && r == repos[ids[j].value]
  }

  /** Resolving one more id: its record, when stored, is added to the result. */
  lemma {:induction false} FoundAllByIdStep(repos: map<int, Repo>, ids: seq<Option<int>>, id: Option<int>, result: seq<Repo>)
    requires FoundAllById(repos, ids, result)
    ensures FoundAllById(repos, ids + [id], if id.Some? && id.value in repos then result + [repos[id.value]] else result)
  {
    var ids' := ids + [id];
    var result' := if id.Some? && id.value in repos then result + [repos[id.value]] else result;
    forall i | 0 <= i < |result'|
      ensures StoredUnderOneOf(repos, ids', result'[i])
    {
      if i < |result| {
        assert StoredUnderOneOf(repos, ids, result[i]);
        var j :| 0 <= j < |ids| && ids[j].Some? && ids[j].value in repos && result[i] == repos[ids[j].value];
        assert ids'[j] == ids[j] && result'[i] == result[i];
      } else {
        assert ids'[|ids|] == id;
      }
    }
    forall j | 0 <= j < |ids'| && ids'[j].Some? && ids'[j].value in repos
      ensures repos[ids'[j].value] in result'
    {
      if j < |ids| {
        assert ids'[j] == ids[j];
      }
    }
  }

  /**
   * `repoRepo.findAllById(ids)`: the stored records of the ids, in the order of the ids,
   * those without a record (or without an id) skipped.
   */
  function FindAllById(repos: map<int, Repo>, ids: seq<Option<int>>): (result: seq<Repo>)
    ensures FoundAllById(repos, ids, result)
    ensures |result| <= |ids|
  {
    if ids == [] then []
    else
      var init := ids[..|ids| - 1];
      var id := ids[|ids| - 1];
      assert init + [id] == ids;
      FoundAllByIdStep(repos, init, id, FindAllById(repos, init));
      if id.Some? && id.value in repos then FindAllById(repos, init) + [repos[id.value]]
      else FindAllById(repos, init)
  }

  /** The repository ids of the picks, in pick order. */
  function RepoIdsOf(cands: seq<Candidate>, picks: seq<nat>): (ids: seq<Option<int>>)
    requires Positions(cands, picks)
    ensures |ids| == |picks| && forall i :: 0 <= i < |picks| ==> ids[i] == cands[picks[i]].repoId
  {
    seq(|picks|, i requires 0 <= i < |picks| => cands[picks[i]].repoId)
  }

  /** A dispatched candidate is never picked again, whatever limit the next call uses. */
  lemma DispatchedNeverReturnedAgain(cands: seq<Candidate>, limit: nat, nextLimit: nat)
    ensures var picks := FindUngivenOldestFirst(cands, limit);
      forall i :: 0 <= i < |picks| ==> picks[i] !in FindUngivenOldestFirst(MarkGiven(cands, picks), nextLimit)
  {
    var picks := FindUngivenOldestFirst(cands, limit);
    var marked := MarkGiven(cands, picks);
    var next := FindUngivenOldestFirst(marked, nextLimit);
    forall i | 0 <= i < |picks| ensures picks[i] !in next {
      assert !Ungiven(marked[picks[i]]);
    }
  }

  /** The flag only goes from false to true: a dispatched candidate stays dispatched. */
  lemma MarkGivenMonotone(cands: seq<Candidate>, picks: seq<nat>)
    ensures forall k :: 0 <= k < |cands| && cands[k].givenToAI == Some(true) ==>
      MarkGiven(cands, picks)[k].givenToAI == Some(true)
    ensures forall k :: 0 <= k < |cands| ==>
      MarkGiven(cands, picks)[k] == cands[k].(givenToAI := MarkGiven(cands, picks)[k].givenToAI)
  {
  }

  /** With nothing undispatched the dispatcher writes nothing. */
  lemma NothingToDispatch(cands: seq<Candidate>, limit: nat)
    requires forall k :: 0 <= k < |cands| ==> !Ungiven(cands[k])
    ensures FindUngivenOldestFirst(cands, limit) == []
    ensures MarkGiven(cands, FindUngivenOldestFirst(cands, limit)) == cands
  {
    NothingUngivenNothingPicked(cands, limit);
  }

  /** Marking keeps the store well formed: only the flag changes. */
  lemma MarkGivenPreservesStoreValid(st: Store, picks: seq<nat>)
    requires StoreValid(st)
    ensures StoreValid(st.(candidates := MarkGiven(st.candidates, picks)))
  {
  }
}
