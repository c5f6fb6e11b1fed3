/** `usePRStatuses`: the PR URLs of the agents and the map of the statuses already loaded. */
module PrStatuses {
  import opened Wrappers
  import opened Schemas
  import opened GitHubApi

  /** A `prUrl` that is present and non-empty, i.e. truthy. */
  predicate HasPrUrl(a: Agent) {
    a.target.prUrl.Some? && a.target.prUrl.value != ""
  }

  function PrUrlsOf(agents: seq<Agent>): (urls: seq<string>)
    ensures |urls| <= |agents|
  {
    if agents == [] then []
    else (if HasPrUrl(agents[0]) then [agents[0].target.prUrl.value] else []) + PrUrlsOf(agents[1..])
  }

  /** A URL is collected exactly when some agent has it as its truthy `prUrl`. */
  lemma {:induction false} PrUrlsOfMembers(agents: seq<Agent>, u: string)
    ensures u in PrUrlsOf(agents) <==> exists i :: 0 <= i < |agents| && HasPrUrl(agents[i]) && agents[i].target.prUrl.value == u
  {
    if agents != [] {
      PrUrlsOfMembers(agents[1..], u);
      if exists i :: 0 <= i < |agents| && HasPrUrl(agents[i]) && agents[i].target.prUrl.value == u {
        var i :| 0 <= i < |agents| && HasPrUrl(agents[i]) && agents[i].target.prUrl.value == u;
        if i > 0 {
          assert agents[1..][i - 1] == agents[i];
        }
      }
      if u in PrUrlsOf(agents[1..]) {
        var i :| 0 <= i < |agents[1..]| && HasPrUrl(agents[1..][i]) && agents[1..][i].target.prUrl.value == u;
        assert agents[i + 1] == agents[1..][i];
      }
    }
  }

  /** `agents?.map(a => a.target.prUrl).filter(url => !!url) ?? []`. */
  function CollectPrUrls(agents: Option<seq<Agent>>): (urls: seq<string>)
    ensures agents.None? ==> urls == []
    ensures agents.Some? ==> urls == PrUrlsOf(agents.value)
  {
    match agents
    case None => []
    case Some(list) => PrUrlsOf(list)
  }

  /** Collecting distributes over concatenation, so the URLs keep the agents' order. */
  lemma {:induction false} PrUrlsOfAppend(xs: seq<Agent>, ys: seq<Agent>)
    ensures PrUrlsOf(xs + ys) == PrUrlsOf(xs) + PrUrlsOf(ys)
  {
    if xs == [] {
      assert xs + ys == ys;
    } else {
      assert (xs + ys)[0] == xs[0];
      assert (xs + ys)[1..] == xs[1..] + ys;
      PrUrlsOfAppend(xs[1..], ys);
    }
  }

  /** Whether query `i` is the last one with data among the queries for `url`. */
  predicate LastWithData(urls: seq<string>, data: seq<Option<PRInfo>>, url: string, i: int)
    requires |data| == |urls|
  {
    && 0 <= i < |urls| && urls[i] == url && data[i].Some?
    && forall j :: i < j < |urls| ==> !(urls[j] == url && data[j].Some?)
  }

  /** Some query for `url` has data. */
  predicate SomeWithData(urls: seq<string>, data: seq<Option<PRInfo>>, url: string)
    requires |data| == |urls|
  {
    exists i :: 0 <= i < |urls| && urls[i] == url && data[i].Some?
  }

  /** What the map holds after the first queries have been visited. */
  ghost predicate MapOf(urls: seq<string>, data: seq<Option<PRInfo>>, m: map<string, PRInfo>)
    requires |data| == |urls|
  {
    && (forall u :: u in m <==> SomeWithData(urls, data, u))
    && (forall u :: u in m ==> exists i :: LastWithData(urls, data, u, i) && m[u] == data[i].value)
  }

  /**
   * `queries.forEach((q, i) => { if (q.data) prInfoMap.set(prUrls[i], q.data) })`:
   * a URL is a key exactly when one of its queries has data, and a later query overwrites an earlier one.
   */
  function BuildPrInfoMap(urls: seq<string>, data: seq<Option<PRInfo>>): (m: map<string, PRInfo>)
    requires |data| == |urls|
    ensures MapOf(urls, data, m)
    decreases |urls|
  {
    if urls == [] then map[]
    else
      var n := |urls| - 1;
      var m := BuildPrInfoMap(urls[..n], data[..n]);
      var r := if data[n].Some? then m[urls[n] := data[n].value] else m;
      VisitQuery(urls, data, m, r);
      r
  }

  lemma VisitQuery(urls: seq<string>, data: seq<Option<PRInfo>>, m: map<string, PRInfo>, r: map<string, PRInfo>)
    requires |data| == |urls| && urls != []
    requires MapOf(urls[..|urls| - 1], data[..|urls| - 1], m)
    requires r == if data[|urls| - 1].Some? then m[urls[|urls| - 1] := data[|urls| - 1].value] else m
    ensures MapOf(urls, data, r)
  {
    VisitQueryKeys(urls, data, m, r);
    VisitQueryValues(urls, data, m, r);
  }

  lemma VisitQueryKeys(urls: seq<string>, data: seq<Option<PRInfo>>, m: map<string, PRInfo>, r: map<string, PRInfo>)
    requires |data| == |urls| && urls != []
    requires forall u :: u in m <==> SomeWithData(urls[..|urls| - 1], data[..|urls| - 1], u)
    requires r == if data[|urls| - 1].Some? then m[urls[|urls| - 1] := data[|urls| - 1].value] else m
    ensures forall u :: u in r <==> SomeWithData(urls, data, u)
  {
    var n := |urls| - 1;
    forall u
      ensures u in r <==> SomeWithData(urls, data, u)
    {
      if SomeWithData(urls, data, u) {
        var i :| 0 <= i < |urls| && urls[i] == u && data[i].Some?;
        if i < n {
          assert urls[..n][i] == u && data[..n][i].Some?;
        }
      }
      if u in r && !(data[n].Some? && u == urls[n]) {
        var i :| 0 <= i < n && urls[..n][i] == u && data[..n][i].Some?;
        assert urls[i] == u && data[i].Some?;
      }
    }
  }

  lemma VisitQueryValues(urls: seq<string>, data: seq<Option<PRInfo>>, m: map<string, PRInfo>, r: map<string, PRInfo>)
    requires |data| == |urls| && urls != []
    requires forall u :: u in m ==> exists i :: LastWithData(urls[..|urls| - 1], data[..|urls| - 1], u, i) && m[u] == data[i].value
    requires r == if data[|urls| - 1].Some? then m[urls[|urls| - 1] := data[|urls| - 1].value] else m
    ensures forall u :: u in r ==> exists i :: LastWithData(urls, data, u, i) && r[u] == data[i].value
  {
    var n := |urls| - 1;
    forall u | u in r
      ensures exists i :: LastWithData(urls, data, u, i) && r[u] == data[i].value
    {
      if data[n].Some? && u == urls[n] {
        assert LastWithData(urls, data, u, n);
      } else {
        var i :| LastWithData(urls[..n], data[..n], u, i) && m[u] == data[i].value;
        assert LastWithData(urls, data, u, i);
      }
    }
  }

  /** `queries.some(q => q.isLoading)`. */
  function AnyLoading(loading: seq<bool>): (r: bool)
    ensures r <==> exists i :: 0 <= i < |loading| && loading[i]
  {
    if loading == [] then false
    else if loading[0] then true
    else
      assert forall i :: 0 < i < |loading| ==> loading[i] == loading[1..][i - 1];
      AnyLoading(loading[1..])
  }
}
