/**
 * The derivations of the agent list: which agents are shown and in which order, the
 * open PR URLs whose comments are prefetched, the repository choices, the hidden count,
 * and what the refresh button does to the query cache.
 */
module AgentList {
  import opened Wrappers
  import opened Schemas
  import opened GitHubApi
  import opened PrStatuses
  import opened Sorting
  import opened QueryCache
  import opened BatchPrefetch

  /** The known PR status of an agent's truthy `prUrl`, if any. */
  function PrInfoOf(a: Agent, statuses: map<string, PRInfo>): (r: Option<PRInfo>)
    ensures r.Some? <==> HasPrUrl(a) && a.target.prUrl.value in statuses
    ensures r.Some? ==> r.value == statuses[a.target.prUrl.value]
  {
    if HasPrUrl(a) && a.target.prUrl.value in statuses then Some(statuses[a.target.prUrl.value]) else None
  }

  /** The filter callback. */
  predicate Keep(a: Agent, statuses: map<string, PRInfo>, showAll: bool, hideExpired: bool) {
    if hideExpired && a.status == Expired then false
    else if !showAll && HasPrUrl(a) && a.target.prUrl.value in statuses && statuses[a.target.prUrl.value].status != Open then false
    else true
  }

  function FilterAgents(agents: seq<Agent>, statuses: map<string, PRInfo>, showAll: bool, hideExpired: bool): (r: seq<Agent>)
    ensures |r| <= |agents|
    ensures forall a :: a in r ==> a in agents && Keep(a, statuses, showAll, hideExpired)
  {
    if agents == [] then []
    else
      (if Keep(agents[0], statuses, showAll, hideExpired) then [agents[0]] else [])
        + FilterAgents(agents[1..], statuses, showAll, hideExpired)
  }

  /** Filtering distributes over concatenation, so kept agents stay in input order and repeats stay. */
  lemma {:induction false} FilterAgentsAppend(xs: seq<Agent>, ys: seq<Agent>, statuses: map<string, PRInfo>,
                                              showAll: bool, hideExpired: bool)
    ensures FilterAgents(xs + ys, statuses, showAll, hideExpired)
      == FilterAgents(xs, statuses, showAll, hideExpired) + FilterAgents(ys, statuses, showAll, hideExpired)
  {
    if xs == [] {
      assert xs + ys == ys;
    } else {
      assert (xs + ys)[0] == xs[0];
      assert (xs + ys)[1..] == xs[1..] + ys;
      FilterAgentsAppend(xs[1..], ys, statuses, showAll, hideExpired);
    }
  }

  /** The agents the filter drops. */
  function Rejected(agents: seq<Agent>, statuses: map<string, PRInfo>, showAll: bool, hideExpired: bool): (r: seq<Agent>)
    ensures |FilterAgents(agents, statuses, showAll, hideExpired)| + |r| == |agents|
  {
    if agents == [] then []
    else
      (if Keep(agents[0], statuses, showAll, hideExpired) then [] else [agents[0]])
        + Rejected(agents[1..], statuses, showAll, hideExpired)
  }

  /** Every kept agent of the input is in the filtered list. */
  lemma {:induction false} KeptAreListed(agents: seq<Agent>, statuses: map<string, PRInfo>, showAll: bool, hideExpired: bool, a: Agent)
    requires a in agents && Keep(a, statuses, showAll, hideExpired)
    ensures a in FilterAgents(agents, statuses, showAll, hideExpired)
  {
    if agents[0] != a {
      KeptAreListed(agents[1..], statuses, showAll, hideExpired, a);
    }
  }

  /** The time the list sorts by: the PR's `updatedAt` when known and non-empty, else `createdAt`. */
  function SortTime(a: Agent, statuses: map<string, PRInfo>): (t: string)
    ensures PrInfoOf(a, statuses).Some? && PrInfoOf(a, statuses).value.updatedAt != "" ==> t == PrInfoOf(a, statuses).value.updatedAt
    ensures !(PrInfoOf(a, statuses).Some? && PrInfoOf(a, statuses).value.updatedAt != "") ==> t == a.createdAt
  {
    var info := PrInfoOf(a, statuses);
    if info.Some? && info.value.updatedAt != "" then info.value.updatedAt else a.createdAt
  }

  /**
   * `filteredAgents`. `time` stands for `new Date(s).getTime()`; no agents data gives the empty list.
   */
  function FilteredAgents(data: Option<seq<Agent>>, statuses: map<string, PRInfo>, showAll: bool, hideExpired: bool,
                          time: string -> int): (r: seq<Agent>)
    ensures data.None? ==> r == []
    ensures data.Some? ==> multiset(r) == multiset(FilterAgents(data.value, statuses, showAll, hideExpired))
    ensures SortedDesc(r, (a: Agent) => time(SortTime(a, statuses)))
  {
    match data
    case None => []
    case Some(agents) => SortDesc(FilterAgents(agents, statuses, showAll, hideExpired), (a: Agent) => time(SortTime(a, statuses)))
  }

  /**
   * The filtered list holds exactly the agents that pass the filter: none from outside the
   * input, no expired one when those are hidden, and, unless everything is shown, an agent
   * with a PR URL is gone exactly when its PR status is known and not open.
   */
  lemma FilteredMembers(agents: seq<Agent>, statuses: map<string, PRInfo>, showAll: bool, hideExpired: bool,
                        time: string -> int, a: Agent)
    ensures var r := FilteredAgents(Some(agents), statuses, showAll, hideExpired, time);
      && (a in r <==> a in agents && Keep(a, statuses, showAll, hideExpired))
      && (a in r && hideExpired ==> a.status != Expired)
      && (a in agents && !showAll && !(hideExpired && a.status == Expired) ==>
            (a !in r <==> PrInfoOf(a, statuses).Some? && PrInfoOf(a, statuses).value.status != Open))
  {
    var f := FilterAgents(agents, statuses, showAll, hideExpired);
    var r := FilteredAgents(Some(agents), statuses, showAll, hideExpired, time);
    assert a in r <==> a in multiset(r);
    assert a in f <==> a in multiset(f);
    if a in agents && Keep(a, statuses, showAll, hideExpired) {
      KeptAreListed(agents, statuses, showAll, hideExpired, a);
    }
  }

  /** Agents sorting equal keep their order from the input list. */
  lemma FilteredStable(agents: seq<Agent>, statuses: map<string, PRInfo>, showAll: bool, hideExpired: bool,
                       time: string -> int, k: int)
    ensures var key := (a: Agent) => time(SortTime(a, statuses));
      WithKey(FilteredAgents(Some(agents), statuses, showAll, hideExpired, time), key, k)
        == WithKey(FilterAgents(agents, statuses, showAll, hideExpired), key, k)
  {
    SortDescStable(FilterAgents(agents, statuses, showAll, hideExpired), (a: Agent) => time(SortTime(a, statuses)), k);
  }

  /** Whether the agent's PR is known to be open. */
  predicate HasOpenPr(a: Agent, statuses: map<string, PRInfo>) {
    PrInfoOf(a, statuses).Some? && PrInfoOf(a, statuses).value.status == Open
  }

  /** The `prUrl` of each shown agent whose PR is known to be open, in shown order. */
  function OpenUrlsOf(agents: seq<Agent>, statuses: map<string, PRInfo>): (urls: seq<string>)
    ensures |urls| <= |agents|
    ensures forall u :: u in urls ==> u in statuses && statuses[u].status == Open && u != ""
    ensures |agents| == 1 ==>
      urls == (if HasOpenPr(agents[0], statuses) then [agents[0].target.prUrl.value] else [])
    ensures forall u :: u in urls ==>
      exists a :: a in agents && HasOpenPr(a, statuses) && a.target.prUrl.value == u
  {
    if agents == [] then []
    else
      var head := if HasOpenPr(agents[0], statuses) then [agents[0].target.prUrl.value] else [];
      var tail := OpenUrlsOf(agents[1..], statuses);
      forall u | u in head + tail
        ensures exists a :: a in agents && HasOpenPr(a, statuses) && a.target.prUrl.value == u
      {
        if u in head {
          assert agents[0] in agents;
        } else {
          var a :| a in agents[1..] && HasOpenPr(a, statuses) && a.target.prUrl.value == u;
          assert a in agents;
        }
      }
      head + tail
  }

  /** `openPrUrls`: nothing while PR statuses load, else the open PRs of the shown agents, in shown order. */
  function OpenPrUrls(filtered: seq<Agent>, statuses: map<string, PRInfo>, prLoading: bool): (urls: seq<string>)
    ensures prLoading ==> urls == []
    ensures !prLoading ==> urls == OpenUrlsOf(filtered, statuses)
  {
    if prLoading then [] else OpenUrlsOf(filtered, statuses)
  }

  /** Selecting open PRs distributes over concatenation, so the order of the shown list is kept. */
  lemma {:induction false} OpenUrlsOfAppend(xs: seq<Agent>, ys: seq<Agent>, statuses: map<string, PRInfo>)
    ensures OpenUrlsOf(xs + ys, statuses) == OpenUrlsOf(xs, statuses) + OpenUrlsOf(ys, statuses)
  {
    if xs == [] {
      assert xs + ys == ys;
    } else {
      assert (xs + ys)[0] == xs[0];
      assert (xs + ys)[1..] == xs[1..] + ys;
      OpenUrlsOfAppend(xs[1..], ys, statuses);
    }
  }

  /** Every shown agent with an open PR contributes its URL. */
  lemma {:induction false} OpenUrlsListed(agents: seq<Agent>, statuses: map<string, PRInfo>, a: Agent)
    requires a in agents && HasOpenPr(a, statuses)
    ensures a.target.prUrl.value in OpenUrlsOf(agents, statuses)
  {
    if agents[0] != a {
      OpenUrlsListed(agents[1..], statuses, a);
    }
  }

  /** The non-empty repositories, added one agent at a time to a sorted duplicate-free list. */
  function RepoList(agents: seq<Agent>): (r: seq<string>)
    ensures StrictlySorted(r)
    ensures forall y :: y in r <==> exists i :: 0 <= i < |agents| && agents[i].source.repository == y && y != ""
  {
    if agents == [] then []
    else
      var n := |agents| - 1;
      var rest := RepoList(agents[..n]);
      var repo := agents[n].source.repository;
      var r := if repo != "" then InsertUnique(repo, rest) else rest;
      assert forall y :: y in r <==> exists i :: 0 <= i < |agents| && agents[i].source.repository == y && y != "" by {
        forall y
          ensures y in r <==> exists i :: 0 <= i < |agents| && agents[i].source.repository == y && y != ""
        {
          if exists i :: 0 <= i < |agents| && agents[i].source.repository == y && y != "" {
            var i :| 0 <= i < |agents| && agents[i].source.repository == y && y != "";
            if i < n {
              assert agents[..n][i] == agents[i];
            }
          }
          if y in rest {
            var i :| 0 <= i < n && agents[..n][i].source.repository == y && y != "";
            assert agents[i] == agents[..n][i];
          }
        }
      }
      r
  }

  /** `repos`: sorted, without duplicates, exactly the non-empty repository names of all agents. */
  function Repos(data: Option<seq<Agent>>): (r: seq<string>)
    ensures StrictlySorted(r)
    ensures data.None? ==> r == []
    ensures data.Some? ==> forall y :: y in r <==> exists i :: 0 <= i < |data.value| && data.value[i].source.repository == y && y != ""
  {
    match data
    case None => []
    case Some(agents) => RepoList(agents)
  }

  /** A strictly sorted list has no repeated entry. */
  lemma SortedHasNoDuplicates(r: seq<string>, i: nat, j: nat)
    requires StrictlySorted(r) && i < j < |r|
    ensures r[i] != r[j]
  {
    if r[i] == r[j] {
      LexLessIrreflexive(r[i]);
    }
  }

  /** `hiddenCount`: how many agents the filter dropped, never negative. */
  function HiddenCount(agents: seq<Agent>, statuses: map<string, PRInfo>, showAll: bool, hideExpired: bool,
                       time: string -> int): (n: int)
    ensures n >= 0
    ensures n == |Rejected(agents, statuses, showAll, hideExpired)|
  {
    var filtered := FilteredAgents(Some(agents), statuses, showAll, hideExpired, time);
    assert |filtered| == |multiset(filtered)| == |multiset(FilterAgents(agents, statuses, showAll, hideExpired))|;
    |agents| - |filtered|
  }

  /**
   * `handleRefresh`: the agents query is refetched (its data replaced only on success), the
   * PR statuses are invalidated, and the PR comments are dropped. The comments are not
   * fetched again here: the hook returns no `refetch`, and the call that throws is swallowed.
   */
  function HandleRefresh<V>(cache: Cache<V>, agentsReply: Option<V>): (r: Cache<V>)
    ensures forall k: QueryKey :: k.PrCommentsKey? ==> k !in r
    ensures forall k: QueryKey :: k.PrStatusKey? ==> (k in r <==> k in cache) && (k in cache ==> r[k] == cache[k].(stale := true))
    ensures agentsReply.Some? ==> GetQueryData(r, AgentsKey) == agentsReply && !r[AgentsKey].stale
    ensures agentsReply.None? ==> (AgentsKey in r <==> AgentsKey in cache) && (AgentsKey in cache ==> r[AgentsKey] == cache[AgentsKey])
    ensures forall k: QueryKey :: k != AgentsKey && !k.PrCommentsKey? && !k.PrStatusKey? ==>
      (k in r <==> k in cache) && (k in cache ==> r[k] == cache[k])
  {
    var fetched := match agentsReply
      case Some(data) => SetQueryData(cache, AgentsKey, data)
      case None => cache;
    RemovePrComments(InvalidatePrStatuses(fetched))
  }

  /** After a refresh, the next prefetch run fetches every URL again. */
  lemma RefreshRefetchesAll<V>(cache: Cache<V>, agentsReply: Option<V>, urls: seq<string>)
    ensures ToFetch(HandleRefresh(cache, agentsReply), urls) == urls
  {
    var r := HandleRefresh(cache, agentsReply);
    NothingCached(r, urls);
  }

  lemma {:induction false} NothingCached<V>(cache: Cache<V>, urls: seq<string>)
    requires forall k: QueryKey :: k.PrCommentsKey? ==> k !in cache
    ensures ToFetch(cache, urls) == urls
  {
    if urls != [] {
      NothingCached(cache, urls[1..]);
      assert !Cached(cache, urls[0]);
    }
  }
}
