/**
 * `parsePrUrl` and `parseIssueUrl`: the leftmost match of
 * `github\.com\/([^/]+)\/([^/]+)\/<segment>\/(\d+)` in a URL string.
 */
module GitHubUrls {
  import opened Wrappers
  import opened Text

  /** Owner, repository and number of a pull request or issue. */
  datatype RepoRef = RepoRef(owner: string, repo: string, number: nat)

  const Host: string := "github.com/"

  /** Length of the maximal run of non-slash characters starting at `i` (the class `[^/]+`, greedy). */
  function NonSlashRun(s: string, i: nat): (n: nat)
    requires i <= |s|
    ensures i + n <= |s|
    ensures forall k :: i <= k < i + n ==> s[k] != '/'
    ensures i + n == |s| || s[i + n] == '/'
    decreases |s| - i
  {
    if i == |s| || s[i] == '/' then 0 else 1 + NonSlashRun(s, i + 1)
  }

  /** Length of the maximal run of digits starting at `i` (the class `\d+`, greedy). */
  function DigitRun(s: string, i: nat): (n: nat)
    requires i <= |s|
    ensures i + n <= |s|
    ensures forall k :: i <= k < i + n ==> IsDigit(s[k])
    ensures i + n == |s| || !IsDigit(s[i + n])
    decreases |s| - i
  {
    if i == |s| || !IsDigit(s[i]) then 0 else 1 + DigitRun(s, i + 1)
  }

  /**
   * The match of the pattern starting exactly at position `i`. The repeated classes
   * cannot give back characters usefully: each is followed by a literal '/' that the
   * class itself excludes, and the final digit run has nothing after it.
   */
  function MatchAt(s: string, i: nat, segment: string): (r: Option<RepoRef>)
    requires i <= |s|
    ensures r.Some? ==> |r.value.owner| > 0 && '/' !in r.value.owner
    ensures r.Some? ==> |r.value.repo| > 0 && '/' !in r.value.repo
    ensures r.Some? ==> StartsWith(s[i..], Host)
  {
    if StartsWith(s[i..], Host) then MatchOwner(s, i + |Host|, segment) else None
  }

  /** `([^/]+)\/` for the owner at `a`, then the rest. */
  function MatchOwner(s: string, a: nat, segment: string): (r: Option<RepoRef>)
    requires a <= |s|
    ensures r.Some? ==> |r.value.owner| > 0 && '/' !in r.value.owner
    ensures r.Some? ==> |r.value.repo| > 0 && '/' !in r.value.repo
  {
    var ownerLen := NonSlashRun(s, a);
    if ownerLen == 0 || a + ownerLen == |s| then None
    else
      var rest := MatchRepo(s, a + ownerLen + 1, segment);
      if rest.Some? then Some(rest.value.(owner := s[a..a + ownerLen])) else None
  }

  /** `([^/]+)\/<segment>\/` for the repository at `b`, then the number. */
  function MatchRepo(s: string, b: nat, segment: string): (r: Option<RepoRef>)
    requires b <= |s|
    ensures r.Some? ==> |r.value.repo| > 0 && '/' !in r.value.repo
  {
    var repoLen := NonSlashRun(s, b);
    var c := b + repoLen;
    var sep := "/" + segment + "/";
    if repoLen == 0 || !StartsWith(s[c..], sep) then None
    else
      var number := MatchNumber(s, c + |sep|);
      if number.Some? then Some(RepoRef("", s[b..c], number.value)) else None
  }

  /** `(\d+)` at `d`, read with `parseInt(_, 10)`. */
  function MatchNumber(s: string, d: nat): Option<nat>
    requires d <= |s|
  {
    var digits := DigitRun(s, d);
    if digits == 0 then None else Some(DigitsValue(s[d..d + digits]))
  }

  // What a match reads, position by position

  /** At `d` starts a non-empty maximal digit run whose decimal value is `number`. */
  predicate NumberAt(s: string, d: nat, number: nat) {
    d <= |s| && DigitRun(s, d) > 0 && DigitsValue(s[d..d + DigitRun(s, d)]) == number
  }

  /**
   * From `i` the text reads `github.com/`, the owner, `/`, the repository, `/`, the
   * segment, `/`, and then the digits of the number.
   */
  predicate MatchedAt(s: string, i: nat, segment: string, r: RepoRef) {
    var a := i + |Host|;
    var b := a + |r.owner| + 1;
    var c := b + |r.repo|;
    var d := c + |segment| + 2;
    && i <= d <= |s|
    && s[i..a] == Host && s[a..b - 1] == r.owner && s[b - 1] == '/' && s[b..c] == r.repo
    && s[c..d] == "/" + segment + "/" && NumberAt(s, d, r.number)
  }

  /** The characters of a slice, by position. */
  lemma SliceChars(s: string, i: nat, j: nat, x: string)
    requires i <= j <= |s| && s[i..j] == x
    ensures forall k :: i <= k < j ==> s[k] == x[k - i]
  {
  }

  /** A slash-free slice followed by a slash is exactly one `[^/]+` run. */
  lemma NonSlashRunOfSlice(s: string, i: nat, x: string)
    requires i + |x| < |s| && s[i..i + |x|] == x && '/' !in x && s[i + |x|] == '/'
    ensures NonSlashRun(s, i) == |x|
  {
    SliceChars(s, i, i + |x|, x);
    NonSlashRunExact(s, i, |x|);
  }

  /** A repository match reads `<repo>/<segment>/` and then the digits of the number. */
  lemma RepoLaidOut(s: string, b: nat, c: nat, d: nat, segment: string, repo: string, n: nat)
    requires b <= |s| && MatchRepo(s, b, segment) == Some(RepoRef("", repo, n))
    requires c == b + |repo| && d == c + |segment| + 2
    ensures d <= |s| && s[b..c] == repo && s[c..d] == "/" + segment + "/" && NumberAt(s, d, n)
  {
    assert s[c..d] == s[c..][..|segment| + 2];
  }

  /** An owner match reads `<owner>/` and then the repository match. */
  lemma OwnerLaidOut(s: string, a: nat, b: nat, segment: string, r: RepoRef)
    requires a <= |s| && MatchOwner(s, a, segment) == Some(r)
    requires b == a + |r.owner| + 1
    ensures b <= |s| && s[a..b - 1] == r.owner && s[b - 1] == '/'
    ensures MatchRepo(s, b, segment) == Some(RepoRef("", r.repo, r.number))
  {
  }

  /** A match reads `github.com/` and then the owner match. */
  lemma HostLaidOut(s: string, i: nat, a: nat, segment: string, r: RepoRef)
    requires i <= |s| && MatchAt(s, i, segment) == Some(r)
    requires a == i + |Host|
    ensures a <= |s| && s[i..a] == Host && MatchOwner(s, a, segment) == Some(r)
  {
    assert s[i..a] == s[i..][..|Host|];
  }

  /** A match is laid out as the pattern reads: host, owner, repository, segment, digits. */
  lemma MatchAtLaidOut(s: string, i: nat, segment: string, r: RepoRef)
    requires i <= |s| && MatchAt(s, i, segment) == Some(r)
    ensures MatchedAt(s, i, segment, r)
  {
    var a := i + |Host|;
    var b := a + |r.owner| + 1;
    var c := b + |r.repo|;
    var d := c + |segment| + 2;
    HostLaidOut(s, i, a, segment, r);
    OwnerLaidOut(s, a, b, segment, r);
    RepoLaidOut(s, b, c, d, segment, r.repo, r.number);
    MatchedAtIntro(s, i, segment, r, a, b, c, d);
  }

  lemma MatchedAtIntro(s: string, i: nat, segment: string, r: RepoRef, a: nat, b: nat, c: nat, d: nat)
    requires a == i + |Host| && b == a + |r.owner| + 1 && c == b + |r.repo| && d == c + |segment| + 2 && d <= |s|
    requires s[i..a] == Host && s[a..b - 1] == r.owner && s[b - 1] == '/' && s[b..c] == r.repo
    requires s[c..d] == "/" + segment + "/" && NumberAt(s, d, r.number)
    ensures MatchedAt(s, i, segment, r)
  {
  }

  lemma MatchedAtElim(s: string, i: nat, segment: string, r: RepoRef, a: nat, b: nat, c: nat, d: nat)
    requires MatchedAt(s, i, segment, r)
    requires a == i + |Host| && b == a + |r.owner| + 1 && c == b + |r.repo| && d == c + |segment| + 2
    ensures d <= |s| && s[i..a] == Host && s[a..b - 1] == r.owner && s[b - 1] == '/' && s[b..c] == r.repo
    ensures s[c..d] == "/" + segment + "/" && NumberAt(s, d, r.number)
  {
  }

  lemma RepoOfLaidOut(s: string, b: nat, c: nat, d: nat, segment: string, repo: string, n: nat)
    requires |repo| > 0 && '/' !in repo
    requires c == b + |repo| && d == c + |segment| + 2 && d <= |s|
    requires s[b..c] == repo && s[c..d] == "/" + segment + "/" && NumberAt(s, d, n)
    ensures MatchRepo(s, b, segment) == Some(RepoRef("", repo, n))
  {
    var sep := "/" + segment + "/";
    SliceChars(s, c, d, sep);
    NonSlashRunOfSlice(s, b, repo);
    assert StartsWith(s[c..], sep) by {
      assert s[c..][..|sep|] == s[c..d];
    }
    assert MatchNumber(s, d) == Some(n);
    MatchRepoStep(s, b, repo, segment, n);
  }

  lemma OwnerOfLaidOut(s: string, a: nat, b: nat, segment: string, owner: string, r: RepoRef)
    requires |owner| > 0 && '/' !in owner
    requires b == a + |owner| + 1 && b <= |s| && s[a..b - 1] == owner && s[b - 1] == '/'
    requires MatchRepo(s, b, segment) == Some(r)
    ensures MatchOwner(s, a, segment) == Some(r.(owner := owner))
  {
    NonSlashRunOfSlice(s, a, owner);
    MatchOwnerStep(s, a, owner, segment, r);
  }

  lemma HostOfLaidOut(s: string, i: nat, a: nat, segment: string, r: RepoRef)
    requires a == i + |Host| && a <= |s| && s[i..a] == Host
    requires MatchOwner(s, a, segment) == Some(r)
    ensures MatchAt(s, i, segment) == Some(r)
  {
    assert s[i..][..|Host|] == s[i..a];
  }

  /** Conversely, text laid out as the pattern matches there, so `MatchAt` finds exactly `MatchedAt`. */
  lemma MatchAtOfMatched(s: string, i: nat, segment: string, r: RepoRef)
    requires |r.owner| > 0 && '/' !in r.owner && |r.repo| > 0 && '/' !in r.repo
    requires MatchedAt(s, i, segment, r)
    ensures MatchAt(s, i, segment) == Some(r)
  {
    var a := i + |Host|;
    var b := a + |r.owner| + 1;
    var c := b + |r.repo|;
    var d := c + |segment| + 2;
    MatchedAtElim(s, i, segment, r, a, b, c, d);
    RepoOfLaidOut(s, b, c, d, segment, r.repo, r.number);
    OwnerOfLaidOut(s, a, b, segment, r.owner, RepoRef("", r.repo, r.number));
    HostOfLaidOut(s, i, a, segment, r);
  }

  /** `k` is the first position at or after `i` where the pattern matches. */
  predicate LeftmostAt(s: string, i: nat, k: nat, segment: string)
    requires i <= |s|
  {
    i <= k <= |s| && MatchAt(s, k, segment).Some? &&
    forall j :: i <= j < k ==> MatchAt(s, j, segment).None?
  }

  /** The leftmost match at or after position `i`. */
  function FirstMatchFrom(s: string, i: nat, segment: string): (r: Option<RepoRef>)
    requires i <= |s|
    ensures r.Some? ==> exists k :: LeftmostAt(s, i, k, segment) && MatchAt(s, k, segment) == r
    ensures r.None? ==> forall k :: i <= k <= |s| ==> MatchAt(s, k, segment).None?
    decreases |s| - i
  {
    var m := MatchAt(s, i, segment);
    if m.Some? then
      assert LeftmostAt(s, i, i, segment);
      m
    else if i == |s| then None
    else
      var r := FirstMatchFrom(s, i + 1, segment);
      assert r.Some? ==> exists k :: LeftmostAt(s, i, k, segment) && MatchAt(s, k, segment) == r by {
        if r.Some? {
          var k :| LeftmostAt(s, i + 1, k, segment) && MatchAt(s, k, segment) == r;
          assert LeftmostAt(s, i, k, segment);
        }
      }
      r
  }

  /** The leftmost `github.com/<owner>/<repo>/<segment>/<digits>` in `url`, or null. */
  function ParseUrl(url: string, segment: string): (r: Option<RepoRef>)
    ensures r.Some? ==> |r.value.owner| > 0 && '/' !in r.value.owner && |r.value.repo| > 0 && '/' !in r.value.repo
    ensures r.Some? ==> exists k :: LeftmostAt(url, 0, k, segment) && MatchAt(url, k, segment) == r
    ensures r.None? <==> forall k :: 0 <= k <= |url| ==> MatchAt(url, k, segment).None?
  {
    FirstMatchFrom(url, 0, segment)
  }

  /** Captures the pattern can produce: `[^/]+` for both owner and repo. */
  predicate GoodCaptures(r: RepoRef) {
    |r.owner| > 0 && '/' !in r.owner && |r.repo| > 0 && '/' !in r.repo
  }

  /** The pattern, read on its own terms, is laid out at `k` for some captures. */
  ghost predicate PatternAt(s: string, k: nat, segment: string) {
    exists r :: GoodCaptures(r) && MatchedAt(s, k, segment, r)
  }

  lemma MatchAtIffPattern(s: string, k: nat, segment: string)
    requires k <= |s|
    ensures MatchAt(s, k, segment).Some? <==> PatternAt(s, k, segment)
  {
    var m := MatchAt(s, k, segment);
    if m.Some? {
      MatchAtLaidOut(s, k, segment, m.value);
      assert GoodCaptures(m.value);
    }
    if PatternAt(s, k, segment) {
      var r :| GoodCaptures(r) && MatchedAt(s, k, segment, r);
      MatchAtOfMatched(s, k, segment, r);
    }
  }

  /** The URL parse against the pattern's layout: the result is laid out at a position where no earlier one is, and there is none exactly when the layout occurs nowhere. */
  lemma ParseUrlLaidOut(url: string, segment: string)
    ensures ParseUrl(url, segment).Some? ==>
      exists k :: 0 <= k <= |url| && MatchedAt(url, k, segment, ParseUrl(url, segment).value) &&
        forall j :: 0 <= j < k ==> !PatternAt(url, j, segment)
    ensures ParseUrl(url, segment).None? <==> forall k :: 0 <= k <= |url| ==> !PatternAt(url, k, segment)
  {
    var p := ParseUrl(url, segment);
    forall k | 0 <= k <= |url|
      ensures MatchAt(url, k, segment).Some? <==> PatternAt(url, k, segment)
    {
      MatchAtIffPattern(url, k, segment);
    }
    if p.Some? {
      var k :| LeftmostAt(url, 0, k, segment) && MatchAt(url, k, segment) == p;
      MatchAtLaidOut(url, k, segment, p.value);
    }
  }

  /** `parsePrUrl`. */
  function ParsePrUrl(url: string): Option<RepoRef> {
    ParseUrl(url, "pull")
  }

  /** `parseIssueUrl`. */
  function ParseIssueUrl(url: string): Option<RepoRef> {
    ParseUrl(url, "issues")
  }

  /** The web URL GitHub shows for a pull request (`segment` = "pull") or an issue (`segment` = "issues"). */
  function WebUrl(r: RepoRef, segment: string): string {
    "https://" + Host + r.owner + "/" + r.repo + "/" + segment + "/" + NatToString(r.number)
  }

  lemma {:induction false} NonSlashRunExact(s: string, i: nat, n: nat)
    requires i + n <= |s|
    requires forall k :: i <= k < i + n ==> s[k] != '/'
    requires i + n == |s| || s[i + n] == '/'
    ensures NonSlashRun(s, i) == n
    decreases n
  {
    if n > 0 {
      NonSlashRunExact(s, i + 1, n - 1);
    }
  }

  lemma {:induction false} DigitRunExact(s: string, i: nat, n: nat)
    requires i + n <= |s|
    requires forall k :: i <= k < i + n ==> IsDigit(s[k])
    requires i + n == |s| || !IsDigit(s[i + n])
    ensures DigitRun(s, i) == n
    decreases n
  {
    if n > 0 {
      DigitRunExact(s, i + 1, n - 1);
    }
  }

  /** Splitting a suffix of `s` that is a concatenation. */
  lemma SuffixSplit(s: string, i: nat, x: string, y: string)
    requires i <= |s| && s[i..] == x + y
    ensures i + |x| <= |s| && s[i..i + |x|] == x && s[i + |x|..] == y
  {
    assert s[i..][..|x|] == x;
    assert s[i..][|x|..] == y;
  }

  /** A slash-free text followed by a slash is exactly one `[^/]+` run. */
  lemma NonSlashRunOf(s: string, i: nat, x: string, y: string)
    requires '/' !in x
    requires i <= |s| && s[i..] == x + ("/" + y)
    ensures NonSlashRun(s, i) == |x|
    ensures s[i..i + |x|] == x && i + |x| < |s| && s[i + |x| + 1..] == y
  {
    SuffixSplit(s, i, x, "/" + y);
    SuffixSplit(s, i + |x|, "/", y);
    assert forall k :: i <= k < i + |x| ==> s[k] == x[k - i];
    NonSlashRunExact(s, i, |x|);
  }

  lemma MatchNumberLayout(s: string, d: nat, n: nat, rest: string)
    requires d <= |s| && s[d..] == NatToString(n) + rest
    requires rest == [] || !IsDigit(rest[0])
    ensures MatchNumber(s, d) == Some(n)
  {
    var digits := NatToString(n);
    SuffixSplit(s, d, digits, rest);
    assert forall k :: d <= k < d + |digits| ==> s[k] == digits[k - d];
    assert d + |digits| < |s| ==> s[d + |digits|] == rest[0];
    DigitRunExact(s, d, |digits|);
    NatToStringValue(n);
  }

  /** A literal separator at `c`, followed by `tail`. */
  lemma SeparatorAt(s: string, c: nat, sep: string, tail: string)
    requires c <= |s| && s[c..] == sep + tail
    ensures StartsWith(s[c..], sep) && c + |sep| <= |s| && s[c + |sep|..] == tail
  {
    SuffixSplit(s, c, sep, tail);
    assert s[c..][..|sep|] == sep;
  }

  lemma SeparatorSplit(segment: string, tail: string)
    ensures "/" + (segment + "/" + tail) == ("/" + segment + "/") + tail
  {
  }

  /** The repository run, the separator and what follows it, read off a laid-out suffix. */
  lemma RepoPart(s: string, b: nat, repo: string, segment: string, tail: string)
    requires |repo| > 0 && '/' !in repo
    requires b <= |s| && s[b..] == repo + ("/" + (segment + "/" + tail))
    ensures NonSlashRun(s, b) == |repo| && b + |repo| <= |s| && s[b..b + |repo|] == repo
    ensures StartsWith(s[b + |repo|..], "/" + segment + "/")
    ensures b + |repo| + |"/" + segment + "/"| <= |s| && s[b + |repo| + |"/" + segment + "/"|..] == tail
  {
    NonSlashRunOf(s, b, repo, segment + "/" + tail);
    SuffixSplit(s, b, repo, "/" + (segment + "/" + tail));
    SeparatorSplit(segment, tail);
    SeparatorAt(s, b + |repo|, "/" + segment + "/", tail);
  }

  lemma MatchRepoStep(s: string, b: nat, repo: string, segment: string, n: nat)
    requires b <= |s| && NonSlashRun(s, b) == |repo| && |repo| > 0 && s[b..b + |repo|] == repo
    requires StartsWith(s[b + |repo|..], "/" + segment + "/")
    requires MatchNumber(s, b + |repo| + |"/" + segment + "/"|) == Some(n)
    ensures MatchRepo(s, b, segment) == Some(RepoRef("", repo, n))
  {
  }

  lemma MatchOwnerStep(s: string, a: nat, owner: string, segment: string, r: RepoRef)
    requires a <= |s| && NonSlashRun(s, a) == |owner| && |owner| > 0 && a + |owner| < |s| && s[a..a + |owner|] == owner
    requires MatchRepo(s, a + |owner| + 1, segment) == Some(r)
    ensures MatchOwner(s, a, segment) == Some(r.(owner := owner))
  {
  }

  lemma MatchAtStep(s: string, i: nat, segment: string, r: RepoRef)
    requires i <= |s| && StartsWith(s[i..], Host)
    requires MatchOwner(s, i + |Host|, segment) == Some(r)
    ensures MatchAt(s, i, segment) == Some(r)
  {
  }

  lemma MatchRepoLayout(s: string, b: nat, repo: string, segment: string, n: nat, rest: string)
    requires |repo| > 0 && '/' !in repo
    requires b <= |s| && s[b..] == repo + ("/" + (segment + "/" + (NatToString(n) + rest)))
    requires rest == [] || !IsDigit(rest[0])
    ensures MatchRepo(s, b, segment) == Some(RepoRef("", repo, n))
  {
    var d := b + |repo| + |"/" + segment + "/"|;
    RepoPart(s, b, repo, segment, NatToString(n) + rest);
    MatchNumberLayout(s, d, n, rest);
    MatchRepoStep(s, b, repo, segment, n);
  }

  /** The pattern matches at `i` when the text there is laid out as host, owner, repo, segment, number. */
  lemma MatchAtLayout(s: string, i: nat, r: RepoRef, segment: string, rest: string)
    requires |r.owner| > 0 && '/' !in r.owner && |r.repo| > 0 && '/' !in r.repo
    requires rest == [] || !IsDigit(rest[0])
    requires i <= |s|
    requires s[i..] == Host + (r.owner + ("/" + (r.repo + ("/" + (segment + "/" + (NatToString(r.number) + rest))))))
    ensures MatchAt(s, i, segment) == Some(r)
  {
    var tail := r.repo + ("/" + (segment + "/" + (NatToString(r.number) + rest)));
    var a := i + |Host|;
    SuffixSplit(s, i, Host, r.owner + ("/" + tail));
    NonSlashRunOf(s, a, r.owner, tail);
    MatchRepoLayout(s, a + |r.owner| + 1, r.repo, segment, r.number, rest);
    MatchOwnerStep(s, a, r.owner, segment, RepoRef("", r.repo, r.number));
    assert s[i..][..|Host|] == Host;
    MatchAtStep(s, i, segment, r);
  }

  lemma NoMatchWithoutHost(s: string, k: nat, segment: string)
    requires k < |s| && s[k] != 'g'
    ensures MatchAt(s, k, segment).None?
  {
    if |Host| <= |s[k..]| {
      assert s[k..][..|Host|][0] == s[k];
    }
  }

  lemma SkipNoMatch(s: string, k: nat, segment: string)
    requires k < |s| && s[k] != 'g'
    ensures FirstMatchFrom(s, k, segment) == FirstMatchFrom(s, k + 1, segment)
  {
    NoMatchWithoutHost(s, k, segment);
  }

  /** Positions without a 'g' cannot start a match, so the search passes over them. */
  lemma {:induction false} SkipNoHost(s: string, i: nat, j: nat, segment: string)
    requires i <= j <= |s|
    requires forall k :: i <= k < j ==> s[k] != 'g'
    ensures FirstMatchFrom(s, i, segment) == FirstMatchFrom(s, j, segment)
    decreases j - i
  {
    if i < j {
      SkipNoMatch(s, i, segment);
      SkipNoHost(s, i + 1, j, segment);
    }
  }

  /** No match can start inside the `https://` scheme, which holds no 'g'. */
  lemma NoMatchInScheme(s: string, segment: string)
    requires StartsWith(s, "https://")
    ensures FirstMatchFrom(s, 0, segment) == FirstMatchFrom(s, 8, segment)
  {
    assert forall k :: 0 <= k < 8 ==> s[k] == s[..8][k];
    SkipNoHost(s, 0, 8, segment);
  }

  lemma Assoc(a: string, b: string, c: string)
    ensures (a + b) + c == a + (b + c)
  {
  }

  /** A web URL followed by `rest`, bracketed the way the matcher reads it. */
  lemma WebUrlLayout(r: RepoRef, segment: string, rest: string)
    ensures WebUrl(r, segment) + rest ==
      "https://" + (Host + (r.owner + ("/" + (r.repo + ("/" + (segment + "/" + (NatToString(r.number) + rest)))))))
  {
    var n := NatToString(r.number);
    var q := segment + "/" + (n + rest);
    calc {
      WebUrl(r, segment) + rest;
      ("https://" + Host + r.owner + "/" + r.repo + "/" + segment + "/" + n) + rest;
      { Assoc("https://" + Host + r.owner + "/" + r.repo + "/" + segment + "/", n, rest); }
      ("https://" + Host + r.owner + "/" + r.repo + "/" + segment + "/") + (n + rest);
      { Assoc("https://" + Host + r.owner + "/" + r.repo + "/" + segment, "/", n + rest);
        Assoc("https://" + Host + r.owner + "/" + r.repo + "/", segment, "/" + (n + rest));
        Assoc(segment, "/", n + rest); }
      ("https://" + Host + r.owner + "/" + r.repo + "/") + q;
      { Assoc("https://" + Host + r.owner + "/" + r.repo, "/", q); }
      ("https://" + Host + r.owner + "/" + r.repo) + ("/" + q);
      { Assoc("https://" + Host + r.owner + "/", r.repo, "/" + q); }
      ("https://" + Host + r.owner + "/") + (r.repo + ("/" + q));
      { Assoc("https://" + Host + r.owner, "/", r.repo + ("/" + q)); }
      ("https://" + Host + r.owner) + ("/" + (r.repo + ("/" + q)));
      { Assoc("https://" + Host, r.owner, "/" + (r.repo + ("/" + q))); }
      ("https://" + Host) + (r.owner + ("/" + (r.repo + ("/" + q))));
      { Assoc("https://", Host, r.owner + ("/" + (r.repo + ("/" + q)))); }
      "https://" + (Host + (r.owner + ("/" + (r.repo + ("/" + q)))));
    }
  }

  /**
   * A web URL parses back to its owner, repository and number, also when a path or
   * query that does not start with a digit follows it (`/files`, `#discussion`, ...).
   */
  lemma ParseWebUrl(r: RepoRef, segment: string, rest: string)
    requires |r.owner| > 0 && '/' !in r.owner && |r.repo| > 0 && '/' !in r.repo
    requires rest == [] || !IsDigit(rest[0])
    ensures FirstMatchFrom(WebUrl(r, segment) + rest, 0, segment) == Some(r)
  {
    var s := WebUrl(r, segment) + rest;
    var after := Host + (r.owner + ("/" + (r.repo + ("/" + (segment + "/" + (NatToString(r.number) + rest))))));
    WebUrlLayout(r, segment, rest);
    SuffixSplit(s, 0, "https://", after);
    MatchAtLayout(s, 8, r, segment, rest);
    NoMatchInScheme(s, segment);
  }

  lemma ParsePrWebUrl(r: RepoRef, rest: string)
    requires |r.owner| > 0 && '/' !in r.owner && |r.repo| > 0 && '/' !in r.repo
    requires rest == [] || !IsDigit(rest[0])
    ensures ParsePrUrl(WebUrl(r, "pull") + rest) == Some(r)
  {
    ParseWebUrl(r, "pull", rest);
  }

  lemma ParseIssueWebUrl(r: RepoRef, rest: string)
    requires |r.owner| > 0 && '/' !in r.owner && |r.repo| > 0 && '/' !in r.repo
    requires rest == [] || !IsDigit(rest[0])
    ensures ParseIssueUrl(WebUrl(r, "issues") + rest) == Some(r)
  {
    ParseWebUrl(r, "issues", rest);
  }
}
