/**
 * `POST /api/issues`: validates the body, creates the issue on GitHub, and, when asked,
 * comments on it to hand it to Cursor. Upstream replies are inputs; requests are recorded.
 */
module IssuesRoute {
  import opened Wrappers
  import opened Text
  import opened Json
  import opened Http

  /** What the handler answers: a JSON reply, or an uncaught exception. */
  datatype Response = Respond(status: int, payload: Json) | Crashed

  datatype Outcome = Outcome(requests: seq<Request>, response: Response)

  /** The fields of the created issue that the handler reads. */
  datatype CreatedIssue = CreatedIssue(number: nat, htmlUrl: string)

  function ErrorReply(status: int, message: string): Response {
    Respond(status, JObj(map["error" := JStr(message)]))
  }

  const HttpsPrefix := "https://github.com/"
  const HttpPrefix := "http://github.com/"
  const BarePrefix := "github.com/"

  predicate HasGitHubPrefix(repo: string) {
    StartsWith(repo, HttpsPrefix) || StartsWith(repo, HttpPrefix) || StartsWith(repo, BarePrefix)
  }

  /** `repo.replace(/^(https?:\/\/)?github\.com\//, "")`: one leading GitHub prefix goes, nothing else. */
  function StripRepoPrefix(repo: string): (path: string)
    ensures |path| <= |repo| && path == repo[|repo| - |path|..]
    ensures path == repo <==> !HasGitHubPrefix(repo)
    ensures StartsWith(repo, HttpsPrefix) ==> repo == HttpsPrefix + path
    ensures !StartsWith(repo, HttpsPrefix) && StartsWith(repo, HttpPrefix) ==> repo == HttpPrefix + path
    ensures !StartsWith(repo, HttpsPrefix) && !StartsWith(repo, HttpPrefix) && StartsWith(repo, BarePrefix) ==> repo == BarePrefix + path
  {
    if StartsWith(repo, HttpsPrefix) then
      assert repo == HttpsPrefix + repo[|HttpsPrefix|..];
      repo[|HttpsPrefix|..]
    else if StartsWith(repo, HttpPrefix) then
      assert repo == HttpPrefix + repo[|HttpPrefix|..];
      repo[|HttpPrefix|..]
    else if StartsWith(repo, BarePrefix) then
      assert repo == BarePrefix + repo[|BarePrefix|..];
      repo[|BarePrefix|..]
    else repo
  }

  function CreateIssueRequest(repoPath: string, title: Json, description: Option<Json>): Request {
    var body := if Truthy(description) then description.value else JStr("");
    Request(HttpPost, "/repos/" + repoPath + "/issues", Some(JObj(map["title" := title, "body" := body])))
  }

  function CursorComment(n: nat): string {
    "@cursor fix this issue (#" + NatToString(n) + ")"
  }

  function CommentRequest(repoPath: string, n: nat): Request {
    Request(HttpPost, "/repos/" + repoPath + "/issues/" + NatToString(n) + "/comments",
      Some(JObj(map["body" := JStr(CursorComment(n))])))
  }

  function SuccessReply(issue: CreatedIssue): Response {
    Respond(200, JObj(map["url" := JStr(issue.htmlUrl), "number" := JNum(issue.number)]))
  }

  /** A body that passes validation: a token, a non-null body, a string repo and a truthy title. */
  predicate ValidBody(hasToken: bool, body: Option<Json>) {
    && hasToken && body.Some? && body.value != JNull
    && Truthy(Get(body.value, "repo")) && Truthy(Get(body.value, "title"))
    && Get(body.value, "repo").value.JStr?
  }

  /** Validation passes on truthiness, but `repo` is no string, so `repo.replace` throws. */
  predicate RepoNotString(hasToken: bool, body: Option<Json>) {
    && hasToken && body.Some? && body.value != JNull
    && Truthy(Get(body.value, "repo")) && Truthy(Get(body.value, "title"))
    && !Get(body.value, "repo").value.JStr?
  }

  function RepoPathOf(body: Json): string {
    match Get(body, "repo")
    case Some(JStr(repo)) => StripRepoPrefix(repo)
    case _ => ""
  }

  /**
   * The handler. `hasToken` is whether `GITHUB_TOKEN` is set; `body` is the parsed request
   * body (`None` when it is not JSON); `createReply` and `commentReply` are GitHub's answers.
   */
  function Handle(hasToken: bool, body: Option<Json>, createReply: Reply<CreatedIssue>, commentReply: Reply<()>): (o: Outcome)
    ensures !hasToken ==> o == Outcome([], ErrorReply(500, "GITHUB_TOKEN not set"))
    ensures hasToken && (body.None? || body == Some(JNull)) ==> o == Outcome([], Crashed)
    ensures hasToken && body.Some? && body.value != JNull && !(Truthy(Get(body.value, "repo")) && Truthy(Get(body.value, "title")))
      ==> o == Outcome([], ErrorReply(400, "repo and title are required"))
    ensures RepoNotString(hasToken, body) ==> o == Outcome([], Crashed)
    ensures o.requests != [] ==> ValidBody(hasToken, body)
    ensures o.requests != [] ==> o.requests[0] == CreateIssueRequest(RepoPathOf(body.value), Get(body.value, "title").value, Get(body.value, "description"))
    ensures createReply.Failed? && o.requests != [] ==>
      o == Outcome(o.requests, ErrorReply(createReply.status, "Failed to create issue")) && |o.requests| == 1
    ensures createReply.Ok? && o.requests != [] ==>
      o.response == SuccessReply(createReply.payload)
      && (|o.requests| == 2 <==> Truthy(Get(body.value, "assignToCursor")))
      && (|o.requests| == 2 ==> o.requests[1] == CommentRequest(RepoPathOf(body.value), createReply.payload.number))
    ensures ValidBody(hasToken, body) ==> o.requests != []
    ensures |o.requests| <= 2
  {
    if !hasToken then Outcome([], ErrorReply(500, "GITHUB_TOKEN not set"))
    else if body.None? || body.value == JNull then Outcome([], Crashed)
    else
      var j := body.value;
      var repo := Get(j, "repo");
      var title := Get(j, "title");
      if !Truthy(repo) || !Truthy(title) then Outcome([], ErrorReply(400, "repo and title are required"))
      else if !repo.value.JStr? then Outcome([], Crashed)
      else
        var repoPath := RepoPathOf(j);
        var create := CreateIssueRequest(repoPath, title.value, Get(j, "description"));
        match createReply
        case Failed(status) => Outcome([create], ErrorReply(status, "Failed to create issue"))
        case Ok(issue) =>
          var comment := if Truthy(Get(j, "assignToCursor")) then [CommentRequest(repoPath, issue.number)] else [];
          Outcome([create] + comment, SuccessReply(issue))
  }

  /** Without a token the answer is the same whatever the body and the upstream replies. */
  lemma TokenCheckedFirst(b1: Option<Json>, b2: Option<Json>, c1: Reply<CreatedIssue>, c2: Reply<CreatedIssue>, m1: Reply<()>, m2: Reply<()>)
    ensures Handle(false, b1, c1, m1) == Handle(false, b2, c2, m2)
  {
  }

  /** The comment's failure never changes what the client is told, nor which requests are made. */
  lemma CommentFailureIgnored(hasToken: bool, body: Option<Json>, createReply: Reply<CreatedIssue>, m1: Reply<()>, m2: Reply<()>)
    ensures Handle(hasToken, body, createReply, m1) == Handle(hasToken, body, createReply, m2)
  {
  }

  /** A string repo and a truthy title always reach GitHub, with the issue posted under the stripped path. */
  lemma ValidBodyCreates(repo: string, title: Json, rest: map<string, Json>, createReply: Reply<CreatedIssue>, commentReply: Reply<()>)
    requires repo != "" && Truthy(Some(title))
    ensures var body := JObj(rest["repo" := JStr(repo)]["title" := title]);
      var o := Handle(true, Some(body), createReply, commentReply);
      o.requests != [] && o.requests[0].path == "/repos/" + StripRepoPrefix(repo) + "/issues"
  {
    var body := JObj(rest["repo" := JStr(repo)]["title" := title]);
    assert Get(body, "repo") == Some(JStr(repo));
    assert Get(body, "title") == Some(title);
  }

  /** The issue body is the description when truthy, else the empty string. */
  lemma IssueBodyDefaultsToEmpty(repoPath: string, title: Json, description: Option<Json>)
    ensures var p := CreateIssueRequest(repoPath, title, description).payload.value.fields;
      p["body"] == (if Truthy(description) then description.value else JStr("")) && p["title"] == title
  {
  }
}
