# Cursor agent orchestrator, modelled in Dafny

This project models the sequential logic of a Next.js dashboard that lists Cursor background
agents, shows the GitHub pull requests they open, and creates GitHub issues for them. Six
pieces are modelled as pure functions and one imperative method, and properties of each are
proved.

- **Batched PR-comment prefetcher** (`useBatchPRComments` / `fetchInBatches`), in module
  `BatchPrefetch`. URLs whose comments are already cached are skipped. The rest are fetched
  in consecutive windows of eight, and each window settles before the next starts. The model
  keeps a progress counter, a loading flag, and one abort flag per run. Each fetch's outcome
  comes from a reply oracle. The moment an abort arrives comes from an abort oracle. The
  react-query cache is a map from query keys to entries (`QueryCache`).
- **GitHub helpers** (`github-api.ts`):
  - the `/pull/` and `/issues/` URL parsers (`GitHubUrls`);
  - PR-status derivation, the request guards of every helper, and the shaping of comment
    and commit records (`GitHubApi`);
  - title-key normalisation and the issue-mapping store over an insertion-ordered map
    (`IssueMap`).
- **Agent list derivations** (`AgentList.tsx`), in module `AgentList`: filter and sort,
  open-PR URL selection, the sorted repository list, the hidden count, and the cache effects
  of a refresh. It relies on `PrStatuses` (`usePRStatuses`) and `Sorting`: a stable
  descending insertion sort and JavaScript's default string order.
- **Status-transition notifier** (`useNotifications`), in module `Notifications`: a pure
  function from the remembered status map and the agent list to the notifications raised and
  the new map.
- **Issue-creation route** (`POST /api/issues`), in module `IssuesRoute`: the token and body
  checks, repo-prefix stripping, and the create-then-maybe-comment flow. The GitHub replies
  are inputs. An uncaught exception is the outcome `Crashed`.
- **Schemas** (`schemas.ts`), in module `Schemas`: the data model and parsers that accept a
  raw JSON value (`Json`) exactly when the zod schema does. Keys a schema does not name are
  ignored, as zod's default object parsing ignores them. Encode/parse round trips are proved.

Network calls, tokens and environment variables become parameters:
- `hasToken` stands for whether `GITHUB_TOKEN` is set;
- a `Reply` is what GitHub answered, either `Failed(status)` or `Ok(payload)`;
- an `Exchange` records the requests a helper issued together with its result.

`Text`, `Json`, `Http` and `Wrappers` hold shared helpers: ASCII character classes, JS
truthiness of JSON values, request records and `Option`.

Notes on the code's behaviour:
- The comment prefetcher skips a URL only when the cache holds data for it
  (`src/hooks/useAgents.ts:80-82`). There is no time-to-live and no separate cache of finished
  pull requests.
- A refresh does not refetch comments. `refetchComments` is not returned by the hook
  (`src/hooks/useAgents.ts:117`), so the call at `src/components/AgentList.tsx:68` throws and
  is swallowed. A refresh is modelled as cache removal and invalidation only.
- The per-fetch abort check (`src/hooks/useAgents.ts:93`) can never fire. Nothing is awaited
  between the window check at line 87 and the synchronous `batch.map`, so once a window
  starts, all of its fetches start. An abort therefore takes effect only at a window boundary.

## Model

| member | source | states |
|---|---|---|
| `BatchPrefetch.ToFetch` | src/hooks/useAgents.ts:80-82 | A URL is to be fetched exactly when it is in the list and has no cached comment data. No other URL is added. |
| `BatchPrefetch.ToFetchAppend` | src/hooks/useAgents.ts:80-82 | Selecting from two lists joined equals joining the two selections. So the to-fetch list keeps the input's order and its repeats, as `filter` does. |
| `BatchPrefetch.SkippedAreCached` | src/hooks/useAgents.ts:83-84 | The number of skipped entries equals the number of cached entries in the list, which is where `fetchedCount` starts. |
| `BatchPrefetch.Windows` | src/hooks/useAgents.ts:86-89 | The to-fetch list splits into ceil(n/8) windows. Each holds 1 to 8 URLs, and every window but the last holds exactly 8. |
| `BatchPrefetch.WindowsCover` | src/hooks/useAgents.ts:86-89 | Concatenating the windows gives back the to-fetch list, so every URL is in exactly one window, in the original order. |
| `BatchPrefetch.WindowIsSlice` | src/hooks/useAgents.ts:89 | Window k is exactly `toFetch.slice(8k, 8k + 8)`. |
| `BatchPrefetch.RunWindow` | src/hooks/useAgents.ts:91-98 | One window starts each fetch in order, then settles each one. A success writes its URL's entry and adds one to the counter. A failure changes neither and does not stop its siblings. |
| `BatchPrefetch.RunWindows` | src/hooks/useAgents.ts:86-99 | The loop runs windows in order until the list ends or an abort is seen at a window boundary. Trace, cache and counter equal the reference run of the started prefix. It reports aborted exactly when the abort came before the last window. |
| `BatchPrefetch.FetchInBatches` | src/hooks/useAgents.ts:72-104 | A run aborts the previous run's controller and fetches only uncached URLs of the list. Its trace, cache and counter are those of the reference run of the windows started before the abort, and the counter is the cached count plus the successes. Every event lies in a window no later than the abort. The loading flag stays set exactly when the run was aborted. A run that is not aborted ends with a counter of cached plus successes, at most the list length. |
| `BatchPrefetch.OnPrUrlsChange` | src/hooks/useAgents.ts:106-115 | An empty list clears the loading flag, starts nothing and aborts the current controller. A non-empty list starts a run. Afterwards every older run has been told to abort. |
| `BatchPrefetch.AbortCurrent` | src/hooks/useAgents.ts:73 | Aborting the current controller sets the newest abort flag and leaves the others alone. |
| `BatchPrefetch.RunTraceOrdered` | src/hooks/useAgents.ts:86-98 | In the reference run, windows never go backwards. Within a window every start precedes every settlement, and no fetch is started or settled twice. |
| `BatchPrefetch.RunTraceCovers` | src/hooks/useAgents.ts:91-98 | Every fetch of a started window has both its start and its settlement, with the oracle's outcome, in the trace. |
| `BatchPrefetch.RunTraceEvents` | src/hooks/useAgents.ts:91-98 | Every event of the reference run is about a started position and its URL, and a settlement carries that fetch's outcome. |
| `BatchPrefetch.CommitStoresLastSuccess` | src/hooks/useAgents.ts:94-95 | A URL's entry holds the fresh data of its last successful fetch. |
| `BatchPrefetch.CommitKeepsUnwritten` | src/hooks/useAgents.ts:94-95 | A key that no successful fetch wrote keeps its entry, or its absence, unchanged. |
| `BatchPrefetch.CachedUntouched` | src/hooks/useAgents.ts:80-82 | A URL with cached comments is never fetched, and its entry survives the run unchanged. |
| `BatchPrefetch.FinishedCountBounded` | src/hooks/useAgents.ts:83-96 | The cached count plus the successes is at most the number of URLs. |
| `QueryCache.GetQueryData` | src/hooks/useAgents.ts:81 | A key yields data exactly when it has an entry holding data. |
| `QueryCache.SetQueryData` | src/hooks/useAgents.ts:95 | The written key holds the new data, fresh, and every other entry is unchanged. |
| `QueryCache.InvalidatePrStatuses` | src/components/AgentList.tsx:65 | Every PR-status entry is marked stale with its data kept. Everything else is unchanged. |
| `QueryCache.RemovePrComments` | src/components/AgentList.tsx:67 | Exactly the PR-comment entries are removed. The remaining entries are unchanged. |
| `PrStatuses.CollectPrUrls` | src/hooks/useAgents.ts:132 | No agents give no URLs. Otherwise the result is the truthy `prUrl`s of the agents. |
| `PrStatuses.PrUrlsOfMembers` | src/hooks/useAgents.ts:132 | A URL is collected exactly when some agent has it as a non-empty `prUrl`. |
| `PrStatuses.PrUrlsOfAppend` | src/hooks/useAgents.ts:132 | Collection distributes over concatenation, so the URLs keep the agents' order. |
| `PrStatuses.BuildPrInfoMap` | src/hooks/useAgents.ts:142-147 | The map has an entry exactly for URLs where some query has data. Each entry holds the data of the last such query for that URL. |
| `PrStatuses.AnyLoading` | src/hooks/useAgents.ts:149 | Loading exactly when some query is loading. |
| `GitHubUrls.ParseUrl` | src/lib/github-api.ts:47-57 | The shared body of `parsePrUrl` (segment `pull`) and `parseIssueUrl` (segment `issues`). The result is the match at the leftmost position where `github.com/<owner>/<repo>/<segment>/<digits>` matches. Owner and repo are non-empty and slash-free. There is no result exactly when the pattern matches nowhere. |
| `GitHubUrls.FirstMatchFrom` | src/lib/github-api.ts:48 | The regular expression's search: the match at the first matching position, or none when no position matches. |
| `GitHubUrls.MatchAt` | src/lib/github-api.ts:48 | A match at a position captures a non-empty, slash-free owner and repo, and the text there starts with `github.com/`. |
| `GitHubUrls.MatchAtLaidOut` | src/lib/github-api.ts:48 | Where a match occurs, the text reads `github.com/`, the owner, `/`, the repo, `/`, the segment and `/`. A non-empty maximal digit run follows, and its decimal value is the number. |
| `GitHubUrls.MatchAtOfMatched` | src/lib/github-api.ts:48 | Conversely, text laid out that way, with a non-empty slash-free owner and repo, is a match with those captures. Together with `MatchAtLaidOut` this says a match occurs exactly where the pattern's layout does. |
| `GitHubUrls.MatchAtIffPattern` | src/lib/github-api.ts:48 | The pattern matches at a position exactly when `github.com/<owner>/<repo>/<segment>/<digits>` is laid out there for some non-empty, slash-free owner and repo. |
| `GitHubUrls.ParseUrlLaidOut` | src/lib/github-api.ts:47-57 | `String.match` read against the layout itself. A result is laid out at some position, and at no earlier position is the layout present for any captures. There is no result exactly when the layout occurs nowhere in the URL. |
| `GitHubUrls.ParsePrWebUrl` | src/lib/github-api.ts:47-51 | A pull request's web URL, with any non-digit suffix, parses back to its owner, repo and number. |
| `GitHubUrls.ParseIssueWebUrl` | src/lib/github-api.ts:53-57 | An issue's web URL, with any non-digit suffix, parses back to its owner, repo and number. |
| `GitHubUrls.NoMatchInScheme` | src/lib/github-api.ts:48 | No match can start inside a leading `https://`. |
| `GitHubApi.DeriveStatus` | src/lib/github-api.ts:91-96 | The status is merged exactly when `merged` is true. It is closed exactly when not merged and the state is "closed". Otherwise it is open. |
| `GitHubApi.ShapePRInfo` | src/lib/github-api.ts:98-104 | The record carries the derived status and the payload's title, number and update time. Draft is true only when the payload says true, so it defaults to false. |
| `GitHubApi.Guarded` | src/lib/github-api.ts:59-70 | With no parsed URL or no token, nothing is requested and there is no result. Otherwise exactly one request is issued, and there is a result exactly when GitHub replied OK. |
| `GitHubApi.FetchPRStatus` | src/lib/github-api.ts:59-104 | An unparsable URL, or a missing token, issues no request and gives no result. With a parsed URL and a token, one GET of the pull is issued. A result exists exactly when the reply is OK. It is the shaped pull: the derived status, the copied title, number and update time, and `draft` true only when given as true. |
| `GitHubApi.FetchPRComments` | src/lib/github-api.ts:127-175 | An unparsable URL or a missing token issues no request and gives no result. With a parsed URL and a token, one GET of the issue comments is issued. An OK reply gives the raw comments shaped one by one, in order. |
| `GitHubApi.FetchIssueComments` | src/lib/github-api.ts:212-260 | As for pull-request comments, for an issue URL: no request without a parsed URL or without a token, one GET with both, and on an OK reply the raw comments shaped one by one, in order. |
| `GitHubApi.CommentOnPR` | src/lib/github-api.ts:177-210 | An unparsable URL or a missing token issues no POST and gives false. With a parsed URL and a token, one POST with the comment is issued, and the result is true exactly when it was accepted. |
| `GitHubApi.CommentOnIssue` | src/lib/github-api.ts:363-397 | As for a PR comment, for an issue URL: no POST and false without a parsed URL or a token. With both, one POST with the comment, and true exactly when it was accepted. |
| `GitHubApi.FetchPRCommits` | src/lib/github-api.ts:323-361 | An unparsable URL or a missing token issues no request and gives no result. With a parsed URL and a token, one GET of the commits is issued. An OK reply gives the raw commits shaped one by one, in order. |
| `GitHubApi.ReactionCounts` | src/lib/github-api.ts:164-173 | The counts hold exactly the eight reaction names. Each is GitHub's count when given, else 0. |
| `GitHubApi.ShapeComment` | src/lib/github-api.ts:158-174 | `isBot` holds exactly when the user type is "Bot". Id, login, body and time are copied. The reactions are the eight counts of `ReactionCounts`, so with no reactions every count is 0. |
| `GitHubApi.ShapeComments` | src/lib/github-api.ts:158 | One shaped comment per raw comment, in order. |
| `GitHubApi.FirstLine` | src/lib/github-api.ts:356 | The result is the longest prefix without a line break: the text before the first `\n`, or all of it. |
| `GitHubApi.FirstLineIdempotent` | src/lib/github-api.ts:356 | Taking the first line twice changes nothing. |
| `GitHubApi.FirstLineOfSingleLine` | src/lib/github-api.ts:356 | A message without a line break is kept whole. |
| `GitHubApi.CommitAuthor` | src/lib/github-api.ts:357 | The author is the git author's non-empty name, else the account's non-empty login, else "Unknown". It is never empty. |
| `GitHubApi.ShapeCommit` | src/lib/github-api.ts:354-360 | The message is the commit message's first line. The author is the git author's name, else the login, else "Unknown". The date is the git author's date, or "" when missing. Sha and URL are copied. |
| `GitHubApi.ShapeCommits` | src/lib/github-api.ts:354 | One shaped commit per raw commit, in order. |
| `IssueMap.Slugify` | src/lib/github-api.ts:19 | The result uses only `[a-z0-9-]` with no two hyphens in a row. It starts with a hyphen only when the input starts outside `[a-z0-9]`. |
| `IssueMap.SlugifyIsCollapsedDashes` | src/lib/github-api.ts:19 | The replacement equals a reference reading: replace every character outside `[a-z0-9]` by a hyphen, then shrink each run of hyphens to one. So each maximal run outside `[a-z0-9]` becomes exactly one hyphen. |
| `IssueMap.SlugifyKeepsAlnums` | src/lib/github-api.ts:19 | Replacing runs keeps every letter and digit of the input, in order. |
| `IssueMap.SlugifyOfSlug` | src/lib/github-api.ts:19 | A text already in key form is left unchanged by the replacement. |
| `IssueMap.TitleKey` | src/lib/github-api.ts:19 | A title key has at most 50 characters, is in key form, and holds no colon. It is the first 50 characters of the lower-cased title after the reference replacement. |
| `IssueMap.TitleKeyIdempotent` | src/lib/github-api.ts:30 | Normalising a key a second time changes nothing. |
| `IssueMap.Lookup` | src/lib/github-api.ts:17 | A key is found exactly when some entry has it, and the value found is that entry's. |
| `IssueMap.Put` | src/lib/github-api.ts:20 | After assignment the key maps to the URL, and every other key keeps its value. An existing key keeps its place. |
| `IssueMap.PutAppends` | src/lib/github-api.ts:20 | A new key goes after every existing entry. |
| `IssueMap.StoreIssueMapping` | src/lib/github-api.ts:14-23 | Key `repo:titleKey` now maps to the issue URL, overwriting any old value. Every other key is unchanged. |
| `IssueMap.SecondField` | src/lib/github-api.ts:33 | A key without a colon gives "". Otherwise the result is the text after the first colon, up to the next colon or the end. It holds no colon. |
| `IssueMap.SecondFieldOfKey` | src/lib/github-api.ts:33 | For a key built from a colon-free repo and title key, the second field is the title key. |
| `IssueMap.FirstMatching` | src/lib/github-api.ts:32-36 | The result is the URL of the first entry, in insertion order, whose key starts with `repo:` and whose title part's first 20 characters occur in the name key. There is none exactly when no entry matches. |
| `IssueMap.FindStoredIssueUrl` | src/lib/github-api.ts:26-39 | The first matching entry for the agent name's normalised key, or nothing when none matches. |
| `IssueMap.StoreThenFind` | src/lib/github-api.ts:14-39 | For a repo name without ':', when nothing matched before, storing a mapping for a title and then searching with that same title finds the stored URL. |
| `IssueMap.DeriveIssueUrl` | src/lib/github-api.ts:42-45 | A non-empty issue URL of the agent wins. Otherwise the stored mapping is searched. |
| `Sorting.InsertDesc` | src/components/AgentList.tsx:30-36 | Insertion adds exactly the element and keeps a descending list descending. |
| `Sorting.SortDesc` | src/components/AgentList.tsx:30-36 | The sort is a permutation of its input and is in descending key order. |
| `Sorting.SortDescStable` | src/components/AgentList.tsx:30-36 | Elements with equal keys keep their input order, so the sort is stable. |
| `Sorting.InsertUnique` | src/components/AgentList.tsx:53-59 | Adding to a strictly sorted list gives a strictly sorted list of the old members plus the new one. |
| `Sorting.LexLessTransitive` | src/components/AgentList.tsx:59 | The default string order is transitive. |
| `Sorting.LexLessTotal` | src/components/AgentList.tsx:59 | Any two distinct strings are ordered one way or the other. |
| `Sorting.LexLessIrreflexive` | src/components/AgentList.tsx:59 | No string is before itself. |
| `AgentList.PrInfoOf` | src/components/AgentList.tsx:24-25 | A PR status is known exactly when the agent has a non-empty `prUrl` that has an entry in the status map. |
| `AgentList.FilterAgents` | src/components/AgentList.tsx:21-29 | Every kept agent comes from the input and passes the filter. |
| `AgentList.FilterAgentsAppend` | src/components/AgentList.tsx:21-29 | Filtering two lists joined equals joining the two filtered lists. So kept agents keep their input order and their repeats, as `filter` does. |
| `AgentList.KeptAreListed` | src/components/AgentList.tsx:21-29 | Every input agent that passes the filter is kept. |
| `AgentList.Rejected` | src/components/AgentList.tsx:21-29 | Kept plus dropped agents add up to the input. |
| `AgentList.SortTime` | src/components/AgentList.tsx:31-34 | The sort time is the PR's non-empty `updatedAt` when known, else the agent's `createdAt`. |
| `AgentList.FilteredAgents` | src/components/AgentList.tsx:19-37 | With no data the list is empty. Otherwise it is a permutation of the filtered agents, ordered newest first by sort time. |
| `AgentList.FilteredMembers` | src/components/AgentList.tsx:22-29 | An agent is listed exactly when it is in the input and passes the filter. With `hideExpired`, no expired agent is listed. Without `showAll`, an agent with a `prUrl` is listed exactly when its status is unknown or open. |
| `AgentList.FilteredStable` | src/components/AgentList.tsx:30-36 | Agents with equal sort times keep their input order. |
| `AgentList.OpenPrUrls` | src/components/AgentList.tsx:40-49 | The result is empty while statuses load. Otherwise it is the open-PR URLs of the shown agents. |
| `AgentList.OpenUrlsOf` | src/components/AgentList.tsx:42-48 | Every selected URL is non-empty and has a known open status, and is the `prUrl` of a listed agent whose PR is open. For a single agent the result is its `prUrl` exactly when its PR is open, and nothing otherwise. |
| `AgentList.OpenUrlsOfAppend` | src/components/AgentList.tsx:42-48 | Selection distributes over concatenation, so URLs come in the shown order. |
| `AgentList.OpenUrlsListed` | src/components/AgentList.tsx:42-48 | Every shown agent with a known open PR contributes its URL. |
| `AgentList.RepoList` | src/components/AgentList.tsx:53-59 | The list is strictly sorted and holds exactly the non-empty repository names of the agents. |
| `AgentList.Repos` | src/components/AgentList.tsx:52-60 | With no data the list is empty. Otherwise it is strictly sorted and holds exactly the non-empty repository names of all agents. |
| `AgentList.SortedHasNoDuplicates` | src/components/AgentList.tsx:59 | A strictly sorted list repeats no name. |
| `AgentList.HiddenCount` | src/components/AgentList.tsx:96 | The hidden count is never negative and equals the number of agents the filter dropped. |
| `AgentList.HandleRefresh` | src/components/AgentList.tsx:62-70 | Every PR-comment entry is gone, and every PR-status entry is stale with its data kept. A successful refetch stores fresh agents, and a failed one leaves their entry as it was. Every other entry is unchanged. |
| `AgentList.RefreshRefetchesAll` | src/components/AgentList.tsx:65-67 | After a refresh, a prefetch run would fetch every URL of its list. |
| `Notifications.NotificationFor` | src/hooks/useNotifications.ts:27-39 | "Agent completed" is raised exactly when the agent had a different remembered status and is now FINISHED. "Agent error" is raised exactly when it had a different remembered status and is now ERROR. Nothing is raised otherwise. |
| `Notifications.Transitions` | src/hooks/useNotifications.ts:26-41 | At most one notification per agent. A one-agent list raises exactly that agent's notification, if it has one. A notification is raised exactly when some agent of the list has it. |
| `Notifications.TransitionsAppend` | src/hooks/useNotifications.ts:26-41 | Notifications come in list order, each judged against the same remembered map. |
| `Notifications.QuietWithoutFinishOrError` | src/hooks/useNotifications.ts:27-39 | Agents seen for the first time, unchanged, or moved into CREATING, RUNNING, STOPPED or EXPIRED raise nothing. |
| `Notifications.StatusMap` | src/hooks/useNotifications.ts:43-47 | The new map holds exactly the listed ids. Each maps to the status of its last occurrence, and missing agents are forgotten. |
| `Notifications.StatusMapOfDistinct` | src/hooks/useNotifications.ts:43-47 | With distinct ids, every agent's own status is remembered. |
| `Notifications.Notify` | src/hooks/useNotifications.ts:20-48 | With an undefined agents list or no permission, nothing is raised and the map is kept. An empty list still replaces the map. Otherwise the transitions are raised and the map is replaced. |
| `Notifications.NotifyTwiceQuiet` | src/hooks/useNotifications.ts:20-48 | Seeing the same list of distinct ids twice raises nothing the second time. |
| `IssuesRoute.StripRepoPrefix` | src/app/api/issues/route.ts:17 | Exactly one leading `https://github.com/`, `http://github.com/` or `github.com/` is removed. The repo is unchanged exactly when it starts with none of them. |
| `IssuesRoute.Handle` | src/app/api/issues/route.ts:3-66 | No token gives 500 before the body is read. A missing or null body throws. A falsy repo or title gives 400 with no upstream call. A non-string repo throws. A valid body always posts the issue first. A failed create answers with GitHub's status and posts no comment. A created issue answers with its URL and number, and a second request is the `@cursor` comment exactly when `assignToCursor` is truthy. |
| `IssuesRoute.TokenCheckedFirst` | src/app/api/issues/route.ts:4-7 | Without a token, the answer depends on neither the body nor GitHub. |
| `IssuesRoute.CommentFailureIgnored` | src/app/api/issues/route.ts:56-59 | The comment's outcome never changes the answer or the requests. |
| `IssuesRoute.ValidBodyCreates` | src/app/api/issues/route.ts:12-31 | A non-empty string repo with a truthy title always reaches GitHub, with the issue posted under the stripped path. |
| `IssuesRoute.IssueBodyDefaultsToEmpty` | src/app/api/issues/route.ts:27-30 | The issue body is the description when truthy, else the empty string. The title is passed through. |
| `Schemas.ParseStatus` | src/lib/schemas.ts:3 | A status is accepted exactly when it is one of the six names, and it encodes back to the same string. |
| `Schemas.ParseSource` | src/lib/schemas.ts:9 | A value is accepted exactly when it is an object whose `repository` is a string and whose `ref` is absent or a string. Other keys are ignored. The accepted source carries those values. |
| `Schemas.ParseTarget` | src/lib/schemas.ts:10-17 | A value is accepted exactly when it is an object with string `branchName` and `url`, and with `prUrl` absent or a string. Each of the three flags must be absent or a boolean. Other keys are ignored. `autoCreatePr` is true exactly when given as true. |
| `Schemas.ParseAgent` | src/lib/schemas.ts:5-20 | A value is accepted exactly when it is an object with string `id`, `name` and `createdAt`, with an accepted status, source and target, and with `summary` absent or a string. Other keys are ignored. The agent carries those values. |
| `Schemas.AgentExtraKeysIgnored` | src/lib/schemas.ts:5-20 | A rendered agent with extra keys that the schema does not name is accepted back unchanged. |
| `Schemas.ParseMessageType` | src/lib/schemas.ts:24 | The message type is user exactly for "user_message", and assistant exactly for "assistant_message". |
| `Schemas.ParseMessage` | src/lib/schemas.ts:22-26 | A value is accepted exactly when it is an object with string `id` and `text` and an accepted `type`. Other keys are ignored. The message carries those values. |
| `Schemas.ParseAll` | src/lib/schemas.ts:29 | An array is accepted exactly when every element is, and the order is kept. |
| `Schemas.ParseAgentsResponse` | src/lib/schemas.ts:28-31 | A response is accepted exactly when it is an object whose `agents` is an array of valid agents and whose `nextCursor` is absent or a string. It holds those agents, each the parse of its array element, in order, whatever other keys the object holds. |
| `Schemas.ParseConversation` | src/lib/schemas.ts:33-35 | A conversation is accepted exactly when it is an object whose `messages` is an array of valid messages, and it holds those messages in order. |
| `Schemas.ParseFollowup` | src/lib/schemas.ts:37-39 | A follow-up is accepted exactly when its message is a string of length at least one. |
| `Schemas.AgentRoundTrip` | src/lib/schemas.ts:5-20 | Every agent, rendered as JSON, is accepted back unchanged. |
| `Schemas.StatusRoundTrip` | src/lib/schemas.ts:3 | Every status name is accepted back as that status. |
| `Schemas.SourceRoundTrip` | src/lib/schemas.ts:9 | Every source, rendered as JSON, is accepted back unchanged. |
| `Schemas.TargetRoundTrip` | src/lib/schemas.ts:10-17 | Every target, rendered as JSON, is accepted back unchanged. |
| `Schemas.MessageRoundTrip` | src/lib/schemas.ts:22-26 | Every message, rendered as JSON, is accepted back unchanged. |
| `Schemas.ParseTargetOf` | src/lib/schemas.ts:10-17 | An object whose keys agree with a target is accepted as that target, whatever other keys it holds. `autoCreatePr` may be absent when it is false. |
| `Schemas.ParseAllOf` | src/lib/schemas.ts:29 | An array whose every element is accepted as the matching element of a list is accepted as exactly that list. |
| `Schemas.AgentsResponseRoundTrip` | src/lib/schemas.ts:28-31 | Every agents response, rendered as JSON, is accepted back unchanged. |
| `Schemas.AutoCreatePrDefaultsToFalse` | src/lib/schemas.ts:14 | A target without `autoCreatePr` is read with it false. |

## Left out

- `markPRReadyForReview` (`src/lib/github-api.ts:262-313`): a REST call followed by a GraphQL mutation. It has no logic beyond the URL guard, which is already modelled for the other helpers.
- `cursor-api.ts` is not part of this model. It is a network client whose only computations are base64 and query-string encoding.
- The pass-through API routes (agents, pr-status, pr-comments, pr-commits, pr-ready, pr-comment, issue-comment and issue-comments). Each one checks a parameter, forwards the call, and maps null or false to an error status.
- Network, tokens and environment variables: `fetch`, `res.json()` and response headers are replaced by `hasToken` and `Reply` inputs. A network rejection (as opposed to a non-OK reply) is not modelled, and neither are console logging or error-message texts.
- React and react-query scheduling: `useEffect`/`useState` timing, the `urlsKey` dependency trick, and `staleTime`/`refetchInterval`. The effect of `invalidateQueries` is modelled only as a stale mark; the refetch it triggers is not. The hooks `usePRComments`, `usePRStatus`, `useAgents`, `useAgent`, `useConversation` and `useFollowup` are library wrappers and are left out.
- BatchPrefetch.FetchInBatches: the fetches of a window settle in position order, and a window's fetches are independent outcomes of the reply oracle. The real interleaving of `Promise.allSettled` is not modelled. Neither are the late cache writes and counter increments that a superseded run's in-flight fetches still make, since the abort signal is never passed to `fetch`. For that reason the counter bound is stated only for a run that was not aborted.
- BatchPrefetch.RunWindow: the per-fetch abort check (`src/hooks/useAgents.ts:93`) is not modelled, because it cannot fire: nothing is awaited between the window check and the synchronous `batch.map`.
- AgentList.HandleRefresh: the `refetchComments()` call is modelled as doing nothing. The hook returns no such function, so the call throws and is swallowed by the surrounding `catch`.
- The `localStorage` persistence and JSON round trip of the issue map, the `typeof window` guards and the swallowed exceptions. The map is an insertion-ordered list of distinct keys. Keys always contain `:`, so JavaScript's integer-key ordering never applies.
- IssueMap.TitleKey: `toLowerCase` is modelled for ASCII only. Non-ASCII letters are outside `[a-z0-9]` in either case, except for the few that lower-case into ASCII.
- Sorting.LexLess: it compares characters by code value. JavaScript compares UTF-16 code units, which differ only beyond the Basic Multilingual Plane.
- AgentList.FilteredAgents: `new Date(...).getTime()` is a parameter `time` from strings to integers, and the NaN results of unparsable dates are not modelled. The sort is the stable insertion order that `Array.prototype.sort` guarantees, not its algorithm.
- `parseInt` on very long digit strings loses precision in JavaScript. The model reads an unbounded natural number.
- GitHubApi.ShapeComment: a comment whose `user` is null makes the source throw. The model's raw comment always has a user. A reaction count that is present but null would read as 0 in the source; the model's raw reaction map holds numbers only.
- Schemas: zod's error messages are not modelled; a parser answers only accepted or rejected. Unknown keys are ignored rather than stripped, because the parsed datatypes have no place for them.
- Json.JNum: JSON numbers are integers in the model, and fractional numbers are not modelled. The core tests a raw number only for truthiness. A non-zero fraction is truthy like a non-zero integer. The one number the core writes is an issue number, which is an integer.
- UI components (`AgentCard`, `ConversationPanel`, `CreateIssueDialog`, `FollowupForm`, the pages) and the browser Notification API with its permission request. Permission is the `granted` input, and the icon is not modelled.
