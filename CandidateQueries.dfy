/**
 * TrendingCandidateRepository: the `existsByRepoId` predicate and the query
 * `WHERE givenToAI = false ORDER BY promotedAt ASC` read with page 0 of size `limit`.
 * Candidates are addressed by their position in the store's sequence of rows.
 */
module CandidateQueries {
  import opened Nullable
  import opened CandidateEntity

  /** `existsByRepoId(repoId)`: some stored candidate has this `repoId`. */
  function ExistsByRepoId(cands: seq<Candidate>, repoId: Option<int>): (r: bool)
    ensures r <==> exists i :: 0 <= i < |cands| && cands[i].repoId == repoId
  {
    if cands == [] then false
    else cands[|cands| - 1].repoId == repoId || ExistsByRepoId(cands[..|cands| - 1], repoId)
  }

  /** The query's filter: `givenToAI = false` (a null flag does not match). */
  predicate Ungiven(c: Candidate) {
    c.givenToAI == Some(false)
  }

  /**
   * The sort key of the candidate at position `k`: its `promotedAt`. The two-argument
   * constructor always sets it; a null one, or a position outside the store, reads as 0.
   */
  function KeyAt(cands: seq<Candidate>, k: nat): int {
    if k < |cands| then cands[k].promotedAt.GetOr(0) else 0
  }

  /** `s` holds positions of `cands`. */
  predicate Positions(cands: seq<Candidate>, s: seq<nat>) {
    forall i :: 0 <= i < |s| ==> s[i] < |cands|
  }

  ghost predicate NoDuplicates(s: seq<nat>) {
    forall x :: multiset(s)[x] <= 1
  }

  predicate OldestFirst(cands: seq<Candidate>, s: seq<nat>) {
    forall i, j :: 0 <= i <= j < |s| ==> KeyAt(cands, s[i]) <= KeyAt(cands, s[j])
  }

  /** Positions below `n` whose candidate has not been given to the AI, in store order. */
  function UngivenBelow(cands: seq<Candidate>, n: nat): (r: seq<nat>)
    requires n <= |cands|
    ensures forall i :: 0 <= i < |r| ==> r[i] < n && Ungiven(cands[r[i]])
    ensures forall k :: 0 <= k < n && Ungiven(cands[k]) ==> k in r
    ensures forall i, j :: 0 <= i < j < |r| ==> r[i] < r[j]
  {
    if n == 0 then []
    else UngivenBelow(cands, n - 1) + (if Ungiven(cands[n - 1]) then [n - 1] else [])
  }

  /** Places `k` into the oldest-first sequence `s`, after every entry strictly older than it. */
  function InsertByAge(cands: seq<Candidate>, k: nat, s: seq<nat>): seq<nat>
  {
    if s == [] then [k]
    else if KeyAt(cands, k) <= KeyAt(cands, s[0]) then [k] + s
    else [s[0]] + InsertByAge(cands, k, s[1..])
  }

  lemma {:induction false} InsertByAgeMultiset(cands: seq<Candidate>, k: nat, s: seq<nat>)
    ensures multiset(InsertByAge(cands, k, s)) == multiset(s) + multiset{k}
  {
    if s != [] && KeyAt(cands, k) > KeyAt(cands, s[0]) {
      InsertByAgeMultiset(cands, k, s[1..]);
      assert s == [s[0]] + s[1..];
    }
  }

  /** A sorted sequence whose head is no older than anything after it. */
  lemma ConsSorted(cands: seq<Candidate>, h: nat, t: seq<nat>)
    requires OldestFirst(cands, t)
    requires forall x :: x in t ==> KeyAt(cands, h) <= KeyAt(cands, x)
    ensures OldestFirst(cands, [h] + t)
  {
    var r := [h] + t;
    forall i, j | 0 <= i <= j < |r| ensures KeyAt(cands, r[i]) <= KeyAt(cands, r[j]) {
      if i == 0 && j > 0 {
        assert r[j] == t[j - 1] && t[j - 1] in t;
      } else if i > 0 {
        assert r[i] == t[i - 1] && r[j] == t[j - 1];
      }
    }
  }

  lemma {:induction false} InsertByAgeSorted(cands: seq<Candidate>, k: nat, s: seq<nat>)
    requires OldestFirst(cands, s)
    ensures OldestFirst(cands, InsertByAge(cands, k, s))
  {
    if s == [] {
    } else {
      assert s == [s[0]] + s[1..];
      assert forall x :: x in s[1..] ==> KeyAt(cands, s[0]) <= KeyAt(cands, x) by {
        forall x | x in s[1..] ensures KeyAt(cands, s[0]) <= KeyAt(cands, x) {
          var m :| 0 <= m < |s[1..]| && s[1..][m] == x;
          assert s[m + 1] == x;
        }
      }
      if KeyAt(cands, k) <= KeyAt(cands, s[0]) {
        ConsSorted(cands, k, s);
      } else {
        var t := InsertByAge(cands, k, s[1..]);
        InsertByAgeSorted(cands, k, s[1..]);
        InsertByAgeMultiset(cands, k, s[1..]);
        assert forall x :: x in t ==> KeyAt(cands, s[0]) <= KeyAt(cands, x) by {
          forall x | x in t ensures KeyAt(cands, s[0]) <= KeyAt(cands, x) {
            assert x in multiset(t);
          }
        }
        ConsSorted(cands, s[0], t);
      }
    }
  }

  /** `ORDER BY promotedAt ASC`, written as an insertion sort of positions. */
  function SortByAge(cands: seq<Candidate>, s: seq<nat>): seq<nat>
  {
    if s == [] then [] else InsertByAge(cands, s[0], SortByAge(cands, s[1..]))
  }

  lemma {:induction false} SortByAgeSorted(cands: seq<Candidate>, s: seq<nat>)
    ensures OldestFirst(cands, SortByAge(cands, s))
    ensures multiset(SortByAge(cands, s)) == multiset(s)
  {
    if s != [] {
      SortByAgeSorted(cands, s[1..]);
      InsertByAgeSorted(cands, s[0], SortByAge(cands, s[1..]));
      InsertByAgeMultiset(cands, s[0], SortByAge(cands, s[1..]));
      assert s == [s[0]] + s[1..];
    }
  }

  lemma IncreasingHasNoDuplicates(s: seq<nat>)
    requires forall i, j :: 0 <= i < j < |s| ==> s[i] < s[j]
    ensures NoDuplicates(s)
  {
    if s != [] {
      var t := s[..|s| - 1];
      IncreasingHasNoDuplicates(t);
      assert s == t + [s[|s| - 1]];
      assert s[|s| - 1] !in t;
    }
  }

  /**
   * `findByGivenToAIFalseOrderByPromotedAtAsc(PageRequest.of(0, limit))`: at most `limit`
   * distinct candidates, all undispatched, oldest first; and they are the oldest: every
   * undispatched candidate left out is no older than any picked one, and is left out only
   * when `limit` candidates were picked.
   */
  function FindUngivenOldestFirst(cands: seq<Candidate>, limit: nat): (picks: seq<nat>)
    ensures Positions(cands, picks) && OldestFirst(cands, picks) && NoDuplicates(picks)
    ensures |picks| <= limit
    ensures forall i :: 0 <= i < |picks| ==> Ungiven(cands[picks[i]])
    ensures forall k :: 0 <= k < |cands| && Ungiven(cands[k]) && k !in picks ==>
              |picks| == limit && forall i :: 0 <= i < |picks| ==> KeyAt(cands, picks[i]) <= KeyAt(cands, k)
  {
    var u := UngivenBelow(cands, |cands|);
    var s := SortByAge(cands, u);
    SortByAgeSorted(cands, u);
    IncreasingHasNoDuplicates(u);
    var n := if limit < |s| then limit else |s|;
    var picks := s[..n];
    PrefixFacts(cands, u, s, n);
    picks
  }

  lemma PrefixFacts(cands: seq<Candidate>, u: seq<nat>, s: seq<nat>, n: nat)
    requires forall i :: 0 <= i < |u| ==> u[i] < |cands| && Ungiven(cands[u[i]])
    requires forall k :: 0 <= k < |cands| && Ungiven(cands[k]) ==> k in u
    requires NoDuplicates(u)
    requires OldestFirst(cands, s) && multiset(s) == multiset(u)
    requires n <= |s|
    ensures Positions(cands, s[..n]) && OldestFirst(cands, s[..n]) && NoDuplicates(s[..n])
    ensures forall i :: 0 <= i < n ==> Ungiven(cands[s[..n][i]])
    ensures forall k :: 0 <= k < |cands| && Ungiven(cands[k]) && k !in s[..n] ==>
              n == |s[..n]| && n < |s| && forall i :: 0 <= i < n ==> KeyAt(cands, s[..n][i]) <= KeyAt(cands, k)
  {
    var picks := s[..n];
    assert s == picks + s[n..];
    assert multiset(s) == multiset(picks) + multiset(s[n..]);
    forall i | 0 <= i < n ensures picks[i] < |cands| && Ungiven(cands[picks[i]]) {
      assert picks[i] in multiset(u);
    }
    forall x ensures multiset(picks)[x] <= 1 {
      assert multiset(picks)[x] <= multiset(s)[x];
    }
    forall k | 0 <= k < |cands| && Ungiven(cands[k]) && k !in picks
      ensures n < |s| && forall i :: 0 <= i < n ==> KeyAt(cands, picks[i]) <= KeyAt(cands, k)
    {
      assert k in multiset(s);
      var j :| 0 <= j < |s| && s[j] == k;
      assert j >= n;
    }
  }

  /** Nothing undispatched means nothing picked. */
  lemma NothingUngivenNothingPicked(cands: seq<Candidate>, limit: nat)
    requires forall k :: 0 <= k < |cands| ==> !Ungiven(cands[k])
    ensures FindUngivenOldestFirst(cands, limit) == []
  {
  }
}
