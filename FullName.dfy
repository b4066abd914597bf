/**
 * Splitting a GitHub `owner/repo` full name (GitHubService.splitFullName), with the
 * two pieces of `java.lang.String` it relies on: `trim` and the first `/`.
 */
module FullName {
  import opened Nullable

  /** `String.trim` removes every leading and trailing character whose code point is at most U+0020. */
  predicate IsTrimmable(c: char) {
    c <= ' '
  }

  /** Number of trimmable characters at the start of `s`. */
  function LeadingBlanks(s: string): (n: nat)
    ensures n <= |s|
    ensures forall i :: 0 <= i < n ==> IsTrimmable(s[i])
    ensures n < |s| ==> !IsTrimmable(s[n])
  {
    if s != [] && IsTrimmable(s[0]) then 1 + LeadingBlanks(s[1..]) else 0
  }

  /**
   * `r` is the part of `s` that starts at `a`, with only trimmable characters
   * before and after it, and no trimmable character at either of its ends.
   */
  predicate IsTrimAt(s: string, a: nat, r: string) {
    && a + |r| <= |s|
    && r == s[a..a + |r|]
    && (forall i :: 0 <= i < a ==> IsTrimmable(s[i]))
    && (forall i :: a + |r| <= i < |s| ==> IsTrimmable(s[i]))
    && (r != [] ==> !IsTrimmable(r[0]) && !IsTrimmable(r[|r| - 1]))
  }

  function TrimEnd(s: string): (r: string)
    ensures |r| <= |s| && r == s[..|r|]
    ensures forall i :: |r| <= i < |s| ==> IsTrimmable(s[i])
    ensures r != [] ==> !IsTrimmable(r[|r| - 1])
  {
    if s != [] && IsTrimmable(s[|s| - 1]) then TrimEnd(s[..|s| - 1]) else s
  }

  /** Java's `String.trim`: what is left after the leading blanks, up to the trailing ones. */
  function Trim(s: string): (r: string)
    ensures IsTrimAt(s, LeadingBlanks(s), r)
  {
    var a := LeadingBlanks(s);
    var r := TrimEnd(s[a..]);
    assert forall i :: a + |r| <= i < |s| ==> s[i] == s[a..][i - a];
    r
  }

  /** Position of the first `c` in `s`, or `|s|` when there is none. */
  function FirstIndexOf(s: string, c: char): (r: nat)
    ensures r <= |s|
    ensures r < |s| ==> s[r] == c
    ensures forall i :: 0 <= i < r ==> s[i] != c
  {
    if s == [] then 0
    else if s[0] == c then 0
    else 1 + FirstIndexOf(s[1..], c)
  }

  /**
   * `splitFullName`: throws (here `None`) on a null name or one without `/`; otherwise
   * `split("/", 2)` cuts at the first `/` and both halves are trimmed, so the
   * repository part may itself contain `/`.
   */
  function SplitFullName(fullName: Option<string>): (r: Option<(string, string)>)
    ensures r.None? <==> fullName.None? || '/' !in fullName.value
    ensures r.Some? ==>
      var s := fullName.value;
      var i := FirstIndexOf(s, '/');
      && i < |s|
      && IsTrimAt(s[..i], LeadingBlanks(s[..i]), r.value.0)
      && IsTrimAt(s[i + 1..], LeadingBlanks(s[i + 1..]), r.value.1)
  {
    if fullName.None? || '/' !in fullName.value then None
    else
      var s := fullName.value;
      var i := FirstIndexOf(s, '/');
      Some((Trim(s[..i]), Trim(s[i + 1..])))
  }

  /** A trimmed string is its own trim when nothing in it is trimmable. */
  lemma {:induction false} TrimOfClean(s: string)
    requires forall i :: 0 <= i < |s| ==> !IsTrimmable(s[i])
    ensures Trim(s) == s
  {
  }

  /**
   * Round trip: for a name without blanks or control characters, the two parts
   * rejoined around `/` give the name back.
   */
  lemma SplitThenJoin(s: string)
    requires '/' in s
    requires forall i :: 0 <= i < |s| ==> !IsTrimmable(s[i])
    ensures SplitFullName(Some(s)).Some?
    ensures SplitFullName(Some(s)).value.0 + "/" + SplitFullName(Some(s)).value.1 == s
  {
    var i := FirstIndexOf(s, '/');
    TrimOfClean(s[..i]);
    TrimOfClean(s[i + 1..]);
    assert s == s[..i] + "/" + s[i + 1..];
  }

  /** The owner part never contains `/`: the cut is at the first one. */
  lemma OwnerHasNoSlash(s: string)
    requires SplitFullName(Some(s)).Some?
    ensures '/' !in SplitFullName(Some(s)).value.0
  {
    var i := FirstIndexOf(s, '/');
    var o := SplitFullName(Some(s)).value.0;
    var a := LeadingBlanks(s[..i]);
    assert o == s[..i][a..a + |o|];
    forall k | 0 <= k < |o| ensures o[k] != '/' {
      assert o[k] == s[a + k];
    }
  }

  /** `a/b/c` splits at the first `/` only. */
  lemma SplitKeepsLaterSlashes()
    ensures SplitFullName(Some("a/b/c")) == Some(("a", "b/c"))
  {
    var s := "a/b/c";
    assert s[1..] == "/b/c";
    assert FirstIndexOf(s, '/') == 1;
    assert s[..1] == "a" && s[2..] == "b/c";
    assert LeadingBlanks("a") == 0 && LeadingBlanks("b/c") == 0;
  }

  /** Blanks around either half are trimmed away. */
  lemma SplitTrimsBothHalves()
    ensures SplitFullName(Some(" o / r ")) == Some(("o", "r"))
  {
    var s := " o / r ";
    assert s[1..] == "o / r " && s[2..] == " / r " && s[3..] == "/ r ";
    assert FirstIndexOf(s, '/') == 3;
    var p, q := s[..3], s[4..];
    assert p == " o " && q == " r ";
    assert p[1..] == "o " && q[1..] == "r ";
    assert LeadingBlanks(p) == 1 && LeadingBlanks(q) == 1;
    assert p[1..] [..1] == "o" && q[1..][..1] == "r";
  }

  lemma SplitRejectsNoSlash()
    ensures SplitFullName(Some("owner")) == None
    ensures SplitFullName(None) == None
  {
  }
}
