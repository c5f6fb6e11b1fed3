/**
 * The GitHub helpers of the dashboard: pull-request status derivation, the URL guard
 * every fetch and comment helper applies before its single request, and the shaping
 * of comment and commit records. Upstream replies are inputs; requests are recorded.
 */
module GitHubApi {
  import opened Wrappers
  import opened Text
  import opened Json
  import opened Http
  import opened GitHubUrls

  datatype PRStatus = Open | Merged | Closed

  datatype PRInfo = PRInfo(status: PRStatus, title: string, number: nat, updatedAt: string, draft: bool)

  /** The fields of a `GET /repos/{o}/{r}/pulls/{n}` reply that the dashboard reads. */
  datatype PullPayload = PullPayload(
    merged: Option<bool>, state: string, title: string, number: nat, updatedAt: string, draft: Option<bool>)

  /** `merged` wins over `state`; anything but a closed state is open. */
  function DeriveStatus(merged: Option<bool>, state: string): (st: PRStatus)
    ensures st == Merged <==> merged == Some(true)
    ensures st == Closed <==> merged != Some(true) && state == "closed"
    ensures st == Open <==> merged != Some(true) && state != "closed"
  {
    if merged == Some(true) then Merged
    else if state == "closed" then Closed
    else Open
  }

  function ShapePRInfo(p: PullPayload): (info: PRInfo)
    ensures info.status == DeriveStatus(p.merged, p.state)
    ensures info.draft <==> p.draft == Some(true)
    ensures info.title == p.title && info.number == p.number && info.updatedAt == p.updatedAt
  {
    PRInfo(DeriveStatus(p.merged, p.state), p.title, p.number, p.updatedAt, p.draft.GetOr(false))
  }

  /** What a helper did: the requests it issued, and its result (`null` / `false` as `None`). */
  datatype Exchange<T> = Exchange(requests: seq<Request>, result: Option<T>)

  function RepoPath(r: RepoRef): string {
    "/repos/" + r.owner + "/" + r.repo
  }

  /**
   * The common shape of every helper: give up before any request when the URL does not
   * parse or no token is configured, otherwise issue exactly one request and shape a
   * successful reply.
   */
  function Guarded<P, T>(target: Option<RepoRef>, hasToken: bool, request: RepoRef -> Request,
                         reply: Reply<P>, shape: P -> T): (x: Exchange<T>)
    ensures target.None? || !hasToken ==> x.requests == [] && x.result.None?
    ensures target.Some? && hasToken ==> x.requests == [request(target.value)]
    ensures x.result.Some? <==> target.Some? && hasToken && reply.Ok?
    ensures x.result.Some? ==> x.result.value == shape(reply.payload)
  {
    if target.None? || !hasToken then Exchange([], None)
    else Exchange([request(target.value)], if reply.Ok? then Some(shape(reply.payload)) else None)
  }

  function GetPull(r: RepoRef): Request {
    Request(HttpGet, RepoPath(r) + "/pulls/" + NatToString(r.number), None)
  }

  function GetComments(r: RepoRef): Request {
    Request(HttpGet, RepoPath(r) + "/issues/" + NatToString(r.number) + "/comments?per_page=100", None)
  }

  function GetCommits(r: RepoRef): Request {
    Request(HttpGet, RepoPath(r) + "/pulls/" + NatToString(r.number) + "/commits?per_page=100", None)
  }

  function PostComment(r: RepoRef, comment: string): Request {
    Request(HttpPost, RepoPath(r) + "/issues/" + NatToString(r.number) + "/comments",
            Some(JObj(map["body" := JStr(comment)])))
  }

  /** `fetchPRStatus`. */
  function FetchPRStatus(prUrl: string, hasToken: bool, reply: Reply<PullPayload>): (x: Exchange<PRInfo>)
    ensures ParsePrUrl(prUrl).None? ==> x.requests == [] && x.result.None?
    ensures !hasToken ==> x.requests == [] && x.result.None?
    ensures ParsePrUrl(prUrl).Some? && hasToken ==> x.requests == [GetPull(ParsePrUrl(prUrl).value)]
    ensures x.result.Some? <==> ParsePrUrl(prUrl).Some? && hasToken && reply.Ok?
    ensures x.result.Some? ==> x.result.value.status == DeriveStatus(reply.payload.merged, reply.payload.state)
    ensures x.result.Some? ==> x.result.value == ShapePRInfo(reply.payload)
  {
    Guarded(ParsePrUrl(prUrl), hasToken, GetPull, reply, ShapePRInfo)
  }

  // Comments

  /** GitHub's reaction summary of a comment, keyed by reaction name (`"+1"`, `"laugh"`, ...). */
  type RawReactions = map<string, int>

  datatype RawUser = RawUser(login: string, userType: string)

  datatype RawComment = RawComment(
    id: int, user: RawUser, body: string, createdAt: string, reactions: Option<RawReactions>)

  const ReactionNames: seq<string> := ["+1", "-1", "laugh", "hooray", "confused", "heart", "rocket", "eyes"]

  datatype PRComment = PRComment(
    id: int, user: string, body: string, createdAt: string, isBot: bool, reactions: map<string, int>)

  /** `comment.reactions?.[name] ?? 0` for each of the eight reaction names. */
  function ReactionCounts(raw: Option<RawReactions>): (counts: map<string, int>)
    ensures counts.Keys == set k | k in ReactionNames
    ensures forall k :: k in counts ==> counts[k] == if raw.Some? && k in raw.value then raw.value[k] else 0
  {
    map k | k in ReactionNames :: if raw.Some? && k in raw.value then raw.value[k] else 0
  }

  function ShapeComment(c: RawComment): (r: PRComment)
    ensures r.isBot <==> c.user.userType == "Bot"
    ensures r.user == c.user.login && r.id == c.id && r.body == c.body && r.createdAt == c.createdAt
    ensures c.reactions.None? ==> forall k :: k in r.reactions ==> r.reactions[k] == 0
    ensures forall k :: k in ReactionNames ==> k in r.reactions
    ensures r.reactions == ReactionCounts(c.reactions)
  {
    PRComment(c.id, c.user.login, c.body, c.createdAt, c.user.userType == "Bot", ReactionCounts(c.reactions))
  }

  function ShapeComments(cs: seq<RawComment>): (r: seq<PRComment>)
    ensures |r| == |cs|
    ensures forall i :: 0 <= i < |cs| ==> r[i] == ShapeComment(cs[i])
  {
    seq(|cs|, i requires 0 <= i < |cs| => ShapeComment(cs[i]))
  }

  /** `fetchPRComments`: the conversation comments of the pull request's issue. */
  function FetchPRComments(prUrl: string, hasToken: bool, reply: Reply<seq<RawComment>>): (x: Exchange<seq<PRComment>>)
    ensures ParsePrUrl(prUrl).None? ==> x.requests == [] && x.result.None?
    ensures !hasToken ==> x.requests == [] && x.result.None?
    ensures ParsePrUrl(prUrl).Some? && hasToken ==> x.requests == [GetComments(ParsePrUrl(prUrl).value)]
    ensures x.result.Some? <==> ParsePrUrl(prUrl).Some? && hasToken && reply.Ok?
    ensures x.result.Some? ==> |x.result.value| == |reply.payload|
    ensures x.result.Some? ==> x.result.value == ShapeComments(reply.payload)
  {
    Guarded(ParsePrUrl(prUrl), hasToken, GetComments, reply, ShapeComments)
  }

  /** `fetchIssueComments`: as `fetchPRComments`, for an issue URL. */
  function FetchIssueComments(issueUrl: string, hasToken: bool, reply: Reply<seq<RawComment>>): (x: Exchange<seq<PRComment>>)
    ensures ParseIssueUrl(issueUrl).None? ==> x.requests == [] && x.result.None?
    ensures !hasToken ==> x.requests == [] && x.result.None?
    ensures ParseIssueUrl(issueUrl).Some? && hasToken ==> x.requests == [GetComments(ParseIssueUrl(issueUrl).value)]
    ensures x.result.Some? <==> ParseIssueUrl(issueUrl).Some? && hasToken && reply.Ok?
    ensures x.result.Some? ==> |x.result.value| == |reply.payload|
    ensures x.result.Some? ==> x.result.value == ShapeComments(reply.payload)
  {
    Guarded(ParseIssueUrl(issueUrl), hasToken, GetComments, reply, ShapeComments)
  }

  /** `commentOnPR`: true exactly when the one POST was issued and accepted. */
  function CommentOnPR(prUrl: string, comment: string, hasToken: bool, reply: Reply<()>): (x: Exchange<()>)
    ensures ParsePrUrl(prUrl).None? ==> x.requests == [] && x.result.None?
    ensures !hasToken ==> x.requests == [] && x.result.None?
    ensures ParsePrUrl(prUrl).Some? && hasToken ==> x.requests == [PostComment(ParsePrUrl(prUrl).value, comment)]
    ensures x.result.Some? <==> ParsePrUrl(prUrl).Some? && hasToken && reply.Ok?
  {
    Guarded(ParsePrUrl(prUrl), hasToken, r => PostComment(r, comment), reply, (u: ()) => u)
  }

  /** `commentOnIssue`: as `commentOnPR`, for an issue URL. */
  function CommentOnIssue(issueUrl: string, comment: string, hasToken: bool, reply: Reply<()>): (x: Exchange<()>)
    ensures ParseIssueUrl(issueUrl).None? ==> x.requests == [] && x.result.None?
    ensures !hasToken ==> x.requests == [] && x.result.None?
    ensures ParseIssueUrl(issueUrl).Some? && hasToken ==> x.requests == [PostComment(ParseIssueUrl(issueUrl).value, comment)]
    ensures x.result.Some? <==> ParseIssueUrl(issueUrl).Some? && hasToken && reply.Ok?
  {
    Guarded(ParseIssueUrl(issueUrl), hasToken, r => PostComment(r, comment), reply, (u: ()) => u)
  }

  // Commits

  datatype RawGitAuthor = RawGitAuthor(name: Option<string>, date: Option<string>)

  /** A commit of `GET .../pulls/{n}/commits`; `account` is the GitHub user, null for unknown e-mails. */
  datatype RawCommit = RawCommit(
    sha: string, message: string, gitAuthor: Option<RawGitAuthor>, account: Option<string>, htmlUrl: string)

  datatype PRCommit = PRCommit(sha: string, message: string, author: string, date: string, url: string)

  /** `message.split("\n")[0]`: the text before the first line break. */
  function FirstLine(s: string): (r: string)
    ensures '\n' !in r
    ensures |r| <= |s| && r == s[..|r|]
    ensures |r| < |s| ==> s[|r|] == '\n'
  {
    if s == [] || s[0] == '\n' then [] else [s[0]] + FirstLine(s[1..])
  }

  /** A non-empty optional string (the source's `x || fallback` on strings). */
  predicate Given(s: Option<string>) {
    s.Some? && s.value != ""
  }

  /** `commit.author?.name || author?.login || "Unknown"`. */
  function CommitAuthor(c: RawCommit): (a: string)
    ensures a != ""
    ensures c.gitAuthor.Some? && Given(c.gitAuthor.value.name) ==> a == c.gitAuthor.value.name.value
    ensures !(c.gitAuthor.Some? && Given(c.gitAuthor.value.name)) && Given(c.account) ==> a == c.account.value
    ensures !(c.gitAuthor.Some? && Given(c.gitAuthor.value.name)) && !Given(c.account) ==> a == "Unknown"
  {
    if c.gitAuthor.Some? && Given(c.gitAuthor.value.name) then c.gitAuthor.value.name.value
    else if Given(c.account) then c.account.value
    else "Unknown"
  }

  function ShapeCommit(c: RawCommit): (r: PRCommit)
    ensures '\n' !in r.message && StartsWith(c.message, r.message)
    ensures r.message == FirstLine(c.message)
    ensures r.author == CommitAuthor(c)
    ensures r.date == if c.gitAuthor.Some? && c.gitAuthor.value.date.Some? then c.gitAuthor.value.date.value else ""
    ensures r.sha == c.sha && r.url == c.htmlUrl
  {
    var date := if c.gitAuthor.Some? && Given(c.gitAuthor.value.date) then c.gitAuthor.value.date.value else "";
    PRCommit(c.sha, FirstLine(c.message), CommitAuthor(c), date, c.htmlUrl)
  }

  function ShapeCommits(cs: seq<RawCommit>): (r: seq<PRCommit>)
    ensures |r| == |cs|
    ensures forall i :: 0 <= i < |cs| ==> r[i] == ShapeCommit(cs[i])
  {
    seq(|cs|, i requires 0 <= i < |cs| => ShapeCommit(cs[i]))
  }

  /** `fetchPRCommits`. */
  function FetchPRCommits(prUrl: string, hasToken: bool, reply: Reply<seq<RawCommit>>): (x: Exchange<seq<PRCommit>>)
    ensures ParsePrUrl(prUrl).None? ==> x.requests == [] && x.result.None?
    ensures !hasToken ==> x.requests == [] && x.result.None?
    ensures ParsePrUrl(prUrl).Some? && hasToken ==> x.requests == [GetCommits(ParsePrUrl(prUrl).value)]
    ensures x.result.Some? <==> ParsePrUrl(prUrl).Some? && hasToken && reply.Ok?
    ensures x.result.Some? ==> |x.result.value| == |reply.payload|
    ensures x.result.Some? ==> x.result.value == ShapeCommits(reply.payload)
  {
    Guarded(ParsePrUrl(prUrl), hasToken, GetCommits, reply, ShapeCommits)
  }

  /** A first line is its own first line. */
  lemma {:induction false} FirstLineIdempotent(s: string)
    ensures FirstLine(FirstLine(s)) == FirstLine(s)
  {
    if s != [] && s[0] != '\n' {
      FirstLineIdempotent(s[1..]);
      assert FirstLine(s)[1..] == FirstLine(s[1..]);
    }
  }

  /** A message without a line break is kept whole. */
  lemma {:induction false} FirstLineOfSingleLine(s: string)
    requires '\n' !in s
    ensures FirstLine(s) == s
  {
    if s != [] {
      assert '\n' !in s[1..];
      FirstLineOfSingleLine(s[1..]);
    }
  }
}
