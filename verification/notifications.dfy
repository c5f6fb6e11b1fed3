/**
 * `useNotifications`: on each new agents list, one desktop notification per agent that
 * moved into FINISHED or ERROR since the previous list, then the remembered statuses are
 * replaced by those of the new list.
 */
module Notifications {
  import opened Wrappers
  import opened Schemas

  datatype Notification = Notification(title: string, body: string)

  /** The notification for one agent, judged against the statuses remembered from before. */
  function NotificationFor(prev: map<string, AgentStatus>, a: Agent): (r: Option<Notification>)
    ensures r == Some(Notification("Agent completed", a.name + " has finished successfully")) <==>
      a.id in prev && prev[a.id] != a.status && a.status == Finished
    ensures r == Some(Notification("Agent error", a.name + " encountered an error")) <==>
      a.id in prev && prev[a.id] != a.status && a.status == Error
    ensures r.Some? ==> a.id in prev && prev[a.id] != a.status && (a.status == Finished || a.status == Error)
  {
    if a.id in prev && prev[a.id] != a.status then
      if a.status == Finished then Some(Notification("Agent completed", a.name + " has finished successfully"))
      else if a.status == Error then Some(Notification("Agent error", a.name + " encountered an error"))
      else None
    else None
  }

  /** The notifications of the whole list, in list order, all judged against the same remembered map. */
  function Transitions(prev: map<string, AgentStatus>, agents: seq<Agent>): (r: seq<Notification>)
    ensures |r| <= |agents|
    ensures |agents| == 1 ==>
      r == (if NotificationFor(prev, agents[0]).Some? then [NotificationFor(prev, agents[0]).value] else [])
    ensures forall n :: n in r <==> exists i :: 0 <= i < |agents| && NotificationFor(prev, agents[i]) == Some(n)
  {
    if agents == [] then []
    else
      var head := match NotificationFor(prev, agents[0]) case Some(n) => [n] case None => [];
      var tail := Transitions(prev, agents[1..]);
      assert forall n :: n in head + tail <==> exists i :: 0 <= i < |agents| && NotificationFor(prev, agents[i]) == Some(n) by {
        forall n
          ensures n in head + tail <==> exists i :: 0 <= i < |agents| && NotificationFor(prev, agents[i]) == Some(n)
        {
          if n in tail {
            var i :| 0 <= i < |agents[1..]| && NotificationFor(prev, agents[1..][i]) == Some(n);
            assert agents[i + 1] == agents[1..][i];
          }
          if exists i :: 0 <= i < |agents| && NotificationFor(prev, agents[i]) == Some(n) {
            var i :| 0 <= i < |agents| && NotificationFor(prev, agents[i]) == Some(n);
            if i > 0 {
              assert agents[1..][i - 1] == agents[i];
            }
          }
        }
      }
      head + tail
  }

  lemma {:induction false} TransitionsAppend(prev: map<string, AgentStatus>, xs: seq<Agent>, ys: seq<Agent>)
    ensures Transitions(prev, xs + ys) == Transitions(prev, xs) + Transitions(prev, ys)
  {
    if xs == [] {
      assert xs + ys == ys;
    } else {
      assert (xs + ys)[0] == xs[0];
      assert (xs + ys)[1..] == xs[1..] + ys;
      TransitionsAppend(prev, xs[1..], ys);
    }
  }

  /** Agents seen for the first time, unchanged, or moved into any other status raise nothing. */
  lemma {:induction false} QuietWithoutFinishOrError(prev: map<string, AgentStatus>, agents: seq<Agent>)
    requires forall i :: 0 <= i < |agents| ==>
      agents[i].id !in prev || prev[agents[i].id] == agents[i].status || agents[i].status !in {Finished, Error}
    ensures Transitions(prev, agents) == []
  {
    if agents != [] {
      QuietWithoutFinishOrError(prev, agents[1..]);
    }
  }

  /** Occurrence `i` is the last one of `id` in the list. */
  predicate LastIdAt(agents: seq<Agent>, id: string, i: int) {
    && 0 <= i < |agents| && agents[i].id == id
    && forall j :: i < j < |agents| ==> agents[j].id != id
  }

  /** The id appears in the list. */
  predicate Listed(agents: seq<Agent>, id: string) {
    exists i :: 0 <= i < |agents| && agents[i].id == id
  }

  /** `m` maps exactly the listed ids, each to the status of its last occurrence. */
  ghost predicate IsStatusMap(agents: seq<Agent>, m: map<string, AgentStatus>) {
    && (forall id :: id in m <==> Listed(agents, id))
    && (forall id :: id in m ==> exists i :: LastIdAt(agents, id, i) && m[id] == agents[i].status)
  }

  /** `newStatuses`: id to status of the current list, a later duplicate id overriding an earlier one. */
  function StatusMap(agents: seq<Agent>): (m: map<string, AgentStatus>)
    ensures IsStatusMap(agents, m)
  {
    if agents == [] then map[]
    else
      var n := |agents| - 1;
      var m := StatusMap(agents[..n]);
      var r := m[agents[n].id := agents[n].status];
      AddAgentKeys(agents, m, r);
      AddAgentValues(agents, m, r);
      r
  }

  lemma AddAgentKeys(agents: seq<Agent>, m: map<string, AgentStatus>, r: map<string, AgentStatus>)
    requires agents != []
    requires forall id :: id in m <==> Listed(agents[..|agents| - 1], id)
    requires r == m[agents[|agents| - 1].id := agents[|agents| - 1].status]
    ensures forall id :: id in r <==> Listed(agents, id)
  {
    var n := |agents| - 1;
    forall id
      ensures id in r <==> Listed(agents, id)
    {
      if id in m {
        var i :| 0 <= i < n && agents[..n][i].id == id;
        assert agents[i].id == id;
      }
      if Listed(agents, id) {
        var i :| 0 <= i < |agents| && agents[i].id == id;
        if i < n {
          assert agents[..n][i].id == id;
        }
      }
    }
  }

  lemma AddAgentValues(agents: seq<Agent>, m: map<string, AgentStatus>, r: map<string, AgentStatus>)
    requires agents != []
    requires forall id :: id in m ==> exists i :: LastIdAt(agents[..|agents| - 1], id, i) && m[id] == agents[i].status
    requires r == m[agents[|agents| - 1].id := agents[|agents| - 1].status]
    ensures forall id :: id in r ==> exists i :: LastIdAt(agents, id, i) && r[id] == agents[i].status
  {
    var n := |agents| - 1;
    forall id | id in r
      ensures exists i :: LastIdAt(agents, id, i) && r[id] == agents[i].status
    {
      if id == agents[n].id {
        assert LastIdAt(agents, id, n);
      } else {
        var i :| LastIdAt(agents[..n], id, i) && m[id] == agents[i].status;
        assert LastIdAt(agents, id, i);
      }
    }
  }

  /** With distinct ids, every agent's own status is remembered. */
  lemma StatusMapOfDistinct(agents: seq<Agent>, i: nat)
    requires forall p, q :: 0 <= p < q < |agents| ==> agents[p].id != agents[q].id
    requires i < |agents|
    ensures agents[i].id in StatusMap(agents) && StatusMap(agents)[agents[i].id] == agents[i].status
  {
    var m := StatusMap(agents);
    assert Listed(agents, agents[i].id);
    var j :| LastIdAt(agents, agents[i].id, j) && m[agents[i].id] == agents[j].status;
    if j != i {
      assert false;
    }
  }

  /**
   * One run of the effect. Without an agents list or without notification permission,
   * nothing is raised and the remembered map stays; otherwise the transitions are raised
   * and the map is replaced.
   */
  function Notify(prev: map<string, AgentStatus>, agents: Option<seq<Agent>>, granted: bool)
    : (r: (seq<Notification>, map<string, AgentStatus>))
    ensures agents.None? || !granted ==> r == ([], prev)
    ensures agents.Some? && granted ==> r.0 == Transitions(prev, agents.value) && r.1 == StatusMap(agents.value)
  {
    if agents.None? || !granted then ([], prev)
    else (Transitions(prev, agents.value), StatusMap(agents.value))
  }

  /** Seeing the same list (of distinct ids) twice raises nothing the second time. */
  lemma NotifyTwiceQuiet(prev: map<string, AgentStatus>, agents: seq<Agent>)
    requires forall p, q :: 0 <= p < q < |agents| ==> agents[p].id != agents[q].id
    ensures Notify(Notify(prev, Some(agents), true).1, Some(agents), true).0 == []
  {
    var m := StatusMap(agents);
    forall i | 0 <= i < |agents|
      ensures agents[i].id !in m || m[agents[i].id] == agents[i].status || agents[i].status !in {Finished, Error}
    {
      StatusMapOfDistinct(agents, i);
    }
    QuietWithoutFinishOrError(m, agents);
  }
}
