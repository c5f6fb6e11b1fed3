/**
 * The dashboard's data model and the acceptance rules of its zod schemas:
 * a `Parse*` function accepts a raw JSON value exactly when the schema does,
 * and a `*ToJson` function renders a model value the way the remote service sends it.
 */
module Schemas {
  import opened Wrappers
  import opened Json

  datatype AgentStatus = Creating | Running | Finished | Stopped | Error | Expired

  function StatusName(s: AgentStatus): string {
    match s
    case Creating => "CREATING"
    case Running => "RUNNING"
    case Finished => "FINISHED"
    case Stopped => "STOPPED"
    case Error => "ERROR"
    case Expired => "EXPIRED"
  }

  const StatusNames: set<string> := {"CREATING", "RUNNING", "FINISHED", "STOPPED", "ERROR", "EXPIRED"}

  /** `AgentStatusSchema`: one of the six status strings. */
  function ParseStatus(j: Json): (r: Option<AgentStatus>)
    ensures r.Some? <==> j.JStr? && j.str in StatusNames
    ensures r.Some? ==> j == JStr(StatusName(r.value))
  {
    if !j.JStr? then None
    else if j.str == "CREATING" then Some(Creating)
    else if j.str == "RUNNING" then Some(Running)
    else if j.str == "FINISHED" then Some(Finished)
    else if j.str == "STOPPED" then Some(Stopped)
    else if j.str == "ERROR" then Some(Error)
    else if j.str == "EXPIRED" then Some(Expired)
    else None
  }

  datatype Source = Source(repository: string, ref: Option<string>)

  datatype Target = Target(
    branchName: string,
    url: string,
    prUrl: Option<string>,
    autoCreatePr: bool,
    openAsCursorGithubApp: Option<bool>,
    skipReviewerRequest: Option<bool>)

  datatype Agent = Agent(
    id: string,
    name: string,
    status: AgentStatus,
    source: Source,
    target: Target,
    summary: Option<string>,
    createdAt: string)

  datatype MessageType = UserMessage | AssistantMessage

  datatype Message = Message(id: string, messageType: MessageType, text: string)

  datatype AgentsResponse = AgentsResponse(agents: seq<Agent>, nextCursor: Option<string>)

  datatype ConversationResponse = ConversationResponse(messages: seq<Message>)

  datatype FollowupRequest = FollowupRequest(message: string)

  /** What one key of an object holds, as far as a field schema is concerned. */
  datatype Field<T> = Missing | Present(value: T) | Mistyped

  function StringField(o: map<string, Json>, key: string): Field<string> {
    if key !in o then Missing else if o[key].JStr? then Present(o[key].str) else Mistyped
  }

  function BoolField(o: map<string, Json>, key: string): Field<bool> {
    if key !in o then Missing else if o[key].JBool? then Present(o[key].b) else Mistyped
  }

  /** A required field (`z.string()`, `z.boolean()`): present with the right type. */
  function Required<T>(f: Field<T>): Option<T> {
    if f.Present? then Some(f.value) else None
  }

  /** An optional field (`.optional()`): absent, or present with the right type; `null` is rejected. */
  function Optional<T>(f: Field<T>): Option<Option<T>> {
    match f
    case Missing => Some(None)
    case Present(v) => Some(Some(v))
    case Mistyped => None
  }

  /** The JSON `v` read for an optional field agrees with the decoded `x`. */
  predicate OptionalAgrees<T>(v: Option<Json>, x: Option<T>, enc: T -> Json) {
    match x
    case None => v.None?
    case Some(y) => v == Some(enc(y))
  }

  /** The key holds a string. */
  predicate HasString(j: Json, key: string) {
    Get(j, key).Some? && Get(j, key).value.JStr?
  }

  /** The key is absent or holds a string. */
  predicate MayHaveString(j: Json, key: string) {
    Get(j, key).None? || Get(j, key).value.JStr?
  }

  /** The key is absent or holds a boolean. */
  predicate MayHaveBool(j: Json, key: string) {
    Get(j, key).None? || Get(j, key).value.JBool?
  }

  /** The key is present and its value is accepted by `parse`. */
  predicate HasParsed<T>(j: Json, key: string, parse: Json -> Option<T>) {
    Get(j, key).Some? && parse(Get(j, key).value).Some?
  }

  function Str(s: string): Json { JStr(s) }

  function Bool(b: bool): Json { JBool(b) }

  /** `SourceSchema`; keys it does not name are ignored. */
  function ParseSource(j: Json): (r: Option<Source>)
    ensures r.Some? <==> j.JObj? && HasString(j, "repository") && MayHaveString(j, "ref")
    ensures r.Some? ==> j.JObj? && Get(j, "repository") == Some(JStr(r.value.repository))
    ensures r.Some? ==> OptionalAgrees(Get(j, "ref"), r.value.ref, Str)
  {
    var o :- if j.JObj? then Some(j.fields) else None;
    var repository :- Required(StringField(o, "repository"));
    var ref :- Optional(StringField(o, "ref"));
    Some(Source(repository, ref))
  }

  /** `TargetSchema`; keys it does not name are ignored. */
  function ParseTarget(j: Json): (r: Option<Target>)
    ensures r.Some? <==>
      && j.JObj? && HasString(j, "branchName") && HasString(j, "url") && MayHaveString(j, "prUrl")
      && MayHaveBool(j, "autoCreatePr") && MayHaveBool(j, "openAsCursorGithubApp") && MayHaveBool(j, "skipReviewerRequest")
    ensures r.Some? ==> Get(j, "branchName") == Some(JStr(r.value.branchName))
    ensures r.Some? ==> Get(j, "url") == Some(JStr(r.value.url))
    ensures r.Some? ==> OptionalAgrees(Get(j, "prUrl"), r.value.prUrl, Str)
    // `.optional().default(false)`: true only when the payload says true
    ensures r.Some? ==> (r.value.autoCreatePr <==> Get(j, "autoCreatePr") == Some(JBool(true)))
    ensures r.Some? && Get(j, "autoCreatePr").Some? ==> Get(j, "autoCreatePr").value.JBool?
  {
    var o :- if j.JObj? then Some(j.fields) else None;
    var branchName :- Required(StringField(o, "branchName"));
    var url :- Required(StringField(o, "url"));
    var prUrl :- Optional(StringField(o, "prUrl"));
    var autoCreatePr :- Optional(BoolField(o, "autoCreatePr"));
    var openAsApp :- Optional(BoolField(o, "openAsCursorGithubApp"));
    var skipReviewer :- Optional(BoolField(o, "skipReviewerRequest"));
    Some(Target(branchName, url, prUrl, autoCreatePr.GetOr(false), openAsApp, skipReviewer))
  }

  function ParseField<T>(o: map<string, Json>, key: string, parse: Json -> Option<T>): Option<T> {
    if key in o then parse(o[key]) else None
  }

  /** The keys `AgentSchema` names. */
  const AgentKeys: set<string> := {"id", "name", "status", "source", "target", "summary", "createdAt"}

  /** `AgentSchema`; keys it does not name are ignored. */
  function ParseAgent(j: Json): (r: Option<Agent>)
    ensures r.Some? <==>
      && j.JObj? && HasString(j, "id") && HasString(j, "name") && HasParsed(j, "status", ParseStatus)
      && HasParsed(j, "source", ParseSource) && HasParsed(j, "target", ParseTarget)
      && MayHaveString(j, "summary") && HasString(j, "createdAt")
    ensures r.Some? ==> Get(j, "id") == Some(JStr(r.value.id))
    ensures r.Some? ==> Get(j, "name") == Some(JStr(r.value.name))
    ensures r.Some? ==> Get(j, "createdAt") == Some(JStr(r.value.createdAt))
    ensures r.Some? ==> Get(j, "status") == Some(JStr(StatusName(r.value.status)))
    ensures r.Some? ==> Get(j, "source").Some? && ParseSource(Get(j, "source").value) == Some(r.value.source)
    ensures r.Some? ==> Get(j, "target").Some? && ParseTarget(Get(j, "target").value) == Some(r.value.target)
    ensures r.Some? ==> OptionalAgrees(Get(j, "summary"), r.value.summary, Str)
  {
    var o :- if j.JObj? then Some(j.fields) else None;
    var id :- Required(StringField(o, "id"));
    var name :- Required(StringField(o, "name"));
    var status :- ParseField(o, "status", ParseStatus);
    var source :- ParseField(o, "source", ParseSource);
    var target :- ParseField(o, "target", ParseTarget);
    var summary :- Optional(StringField(o, "summary"));
    var createdAt :- Required(StringField(o, "createdAt"));
    Some(Agent(id, name, status, source, target, summary, createdAt))
  }

  function ParseMessageType(j: Json): (r: Option<MessageType>)
    ensures r == Some(UserMessage) <==> j == JStr("user_message")
    ensures r == Some(AssistantMessage) <==> j == JStr("assistant_message")
  {
    if j == JStr("user_message") then Some(UserMessage)
    else if j == JStr("assistant_message") then Some(AssistantMessage)
    else None
  }

  /** `MessageSchema`; keys it does not name are ignored. */
  function ParseMessage(j: Json): (r: Option<Message>)
    ensures r.Some? <==>
      j.JObj? && HasString(j, "id") && HasParsed(j, "type", ParseMessageType) && HasString(j, "text")
    ensures r.Some? ==> Get(j, "id") == Some(JStr(r.value.id)) && Get(j, "text") == Some(JStr(r.value.text))
    ensures r.Some? ==> Get(j, "type").Some? && ParseMessageType(Get(j, "type").value) == Some(r.value.messageType)
  {
    var o :- if j.JObj? then Some(j.fields) else None;
    var id :- Required(StringField(o, "id"));
    var messageType :- ParseField(o, "type", ParseMessageType);
    var text :- Required(StringField(o, "text"));
    Some(Message(id, messageType, text))
  }

  /** `z.array(item)`: every element must be accepted, and the order is kept. */
  function ParseAll<T>(items: seq<Json>, parse: Json -> Option<T>): (r: Option<seq<T>>)
    ensures r.Some? <==> forall i :: 0 <= i < |items| ==> parse(items[i]).Some?
    ensures r.Some? ==> |r.value| == |items| && forall i :: 0 <= i < |items| ==> parse(items[i]) == Some(r.value[i])
  {
    if items == [] then Some([])
    else
      var head :- parse(items[0]);
      var tail :- ParseAll(items[1..], parse);
      Some([head] + tail)
  }

  function ParseArrayField<T>(o: map<string, Json>, key: string, parse: Json -> Option<T>): Option<seq<T>> {
    if key in o && o[key].JArr? then ParseAll(o[key].items, parse) else None
  }

  /** `AgentsResponseSchema`. */
  function ParseAgentsResponse(j: Json): (r: Option<AgentsResponse>)
    ensures r.Some? <==>
      && j.JObj? && Get(j, "agents").Some? && Get(j, "agents").value.JArr?
      && (forall i :: 0 <= i < |Get(j, "agents").value.items| ==> ParseAgent(Get(j, "agents").value.items[i]).Some?)
      && Optional(StringField(j.fields, "nextCursor")).Some?
    ensures r.Some? ==> |r.value.agents| == |Get(j, "agents").value.items|
    ensures r.Some? ==> forall i :: 0 <= i < |r.value.agents| ==> ParseAgent(Get(j, "agents").value.items[i]) == Some(r.value.agents[i])
    ensures r.Some? ==> OptionalAgrees(Get(j, "nextCursor"), r.value.nextCursor, Str)
  {
    var o :- if j.JObj? then Some(j.fields) else None;
    var agents :- ParseArrayField(o, "agents", ParseAgent);
    var nextCursor :- Optional(StringField(o, "nextCursor"));
    Some(AgentsResponse(agents, nextCursor))
  }

  /** `ConversationResponseSchema`. */
  function ParseConversation(j: Json): (r: Option<ConversationResponse>)
    ensures r.Some? <==>
      && j.JObj? && Get(j, "messages").Some? && Get(j, "messages").value.JArr?
      && (forall i :: 0 <= i < |Get(j, "messages").value.items| ==> ParseMessage(Get(j, "messages").value.items[i]).Some?)
    ensures r.Some? ==> |r.value.messages| == |Get(j, "messages").value.items|
    ensures r.Some? ==> forall i :: 0 <= i < |r.value.messages| ==> ParseMessage(Get(j, "messages").value.items[i]) == Some(r.value.messages[i])
  {
    var o :- if j.JObj? then Some(j.fields) else None;
    var messages :- ParseArrayField(o, "messages", ParseMessage);
    Some(ConversationResponse(messages))
  }

  /** `FollowupRequestSchema`: a message string of length at least one. */
  function ParseFollowup(j: Json): (r: Option<FollowupRequest>)
    ensures r.Some? <==> exists s :: Get(j, "message") == Some(JStr(s)) && |s| >= 1
    ensures r.Some? ==> Get(j, "message") == Some(JStr(r.value.message))
  {
    var o :- if j.JObj? then Some(j.fields) else None;
    var message :- Required(StringField(o, "message"));
    if |message| >= 1 then Some(FollowupRequest(message)) else None
  }

  // Rendering, in the shape the remote service sends

  /** Adds `key` to the object only when the optional value is present. */
  function WithOptional<T>(o: map<string, Json>, key: string, x: Option<T>, enc: T -> Json): map<string, Json> {
    if x.Some? then o[key := enc(x.value)] else o
  }

  function SourceToJson(s: Source): Json {
    JObj(WithOptional(map["repository" := JStr(s.repository)], "ref", s.ref, Str))
  }

  function TargetToJson(t: Target): Json {
    var o := map["branchName" := JStr(t.branchName), "url" := JStr(t.url), "autoCreatePr" := JBool(t.autoCreatePr)];
    var o := WithOptional(o, "prUrl", t.prUrl, Str);
    var o := WithOptional(o, "openAsCursorGithubApp", t.openAsCursorGithubApp, Bool);
    JObj(WithOptional(o, "skipReviewerRequest", t.skipReviewerRequest, Bool))
  }

  function AgentToJson(a: Agent): Json {
    var o := map[
      "id" := JStr(a.id), "name" := JStr(a.name), "status" := JStr(StatusName(a.status)),
      "source" := SourceToJson(a.source), "target" := TargetToJson(a.target),
      "createdAt" := JStr(a.createdAt)];
    JObj(WithOptional(o, "summary", a.summary, Str))
  }

  function MessageTypeName(t: MessageType): string {
    match t
    case UserMessage => "user_message"
    case AssistantMessage => "assistant_message"
  }

  function MessageToJson(m: Message): Json {
    JObj(map["id" := JStr(m.id), "type" := JStr(MessageTypeName(m.messageType)), "text" := JStr(m.text)])
  }

  function AgentsResponseToJson(r: AgentsResponse): Json {
    var items := seq(|r.agents|, i requires 0 <= i < |r.agents| => AgentToJson(r.agents[i]));
    JObj(WithOptional(map["agents" := JArr(items)], "nextCursor", r.nextCursor, Str))
  }

  // Round trips

  lemma StatusRoundTrip(s: AgentStatus)
    ensures ParseStatus(JStr(StatusName(s))) == Some(s)
  {
  }

  lemma SourceRoundTrip(s: Source)
    ensures ParseSource(SourceToJson(s)) == Some(s)
  {
  }

  lemma TargetRoundTrip(t: Target)
    ensures ParseTarget(TargetToJson(t)) == Some(t)
  {
  }

  lemma AgentRoundTrip(a: Agent)
    ensures ParseAgent(AgentToJson(a)) == Some(a)
  {
    var o := AgentToJson(a).fields;
    assert Required(StringField(o, "id")) == Some(a.id);
    assert Required(StringField(o, "name")) == Some(a.name);
    StatusRoundTrip(a.status);
    assert ParseField(o, "status", ParseStatus) == Some(a.status);
    SourceRoundTrip(a.source);
    assert ParseField(o, "source", ParseSource) == Some(a.source);
    TargetRoundTrip(a.target);
    assert ParseField(o, "target", ParseTarget) == Some(a.target);
    assert Optional(StringField(o, "summary")) == Some(a.summary);
    assert Required(StringField(o, "createdAt")) == Some(a.createdAt);
  }

  lemma MessageRoundTrip(m: Message)
    ensures ParseMessage(MessageToJson(m)) == Some(m)
  {
  }

  /** Every item read as the matching element: the whole array is read as the sequence. */
  lemma {:induction false} ParseAllOf<T>(items: seq<Json>, parse: Json -> Option<T>, xs: seq<T>)
    requires |xs| == |items| && forall i :: 0 <= i < |items| ==> parse(items[i]) == Some(xs[i])
    ensures ParseAll(items, parse) == Some(xs)
  {
    if items != [] {
      ParseAllOf(items[1..], parse, xs[1..]);
      assert xs == [xs[0]] + xs[1..];
    }
  }

  lemma AgentItemsRoundTrip(agents: seq<Agent>, items: seq<Json>)
    requires items == seq(|agents|, i requires 0 <= i < |agents| => AgentToJson(agents[i]))
    ensures ParseAll(items, ParseAgent) == Some(agents)
  {
    forall i | 0 <= i < |items|
      ensures ParseAgent(items[i]) == Some(agents[i])
    {
      AgentRoundTrip(agents[i]);
    }
    ParseAllOf(items, ParseAgent, agents);
  }

  lemma AgentsResponseRoundTrip(r: AgentsResponse)
    ensures ParseAgentsResponse(AgentsResponseToJson(r)) == Some(r)
  {
    var items := seq(|r.agents|, i requires 0 <= i < |r.agents| => AgentToJson(r.agents[i]));
    AgentItemsRoundTrip(r.agents, items);
  }

  /** Keys the schema does not name, such as those a newer service adds, leave an agent as it is. */
  lemma AgentExtraKeysIgnored(a: Agent, extra: map<string, Json>)
    requires extra.Keys !! AgentKeys
    ensures ParseAgent(JObj(extra + AgentToJson(a).fields)) == Some(a)
  {
    var o := extra + AgentToJson(a).fields;
    assert Required(StringField(o, "id")) == Some(a.id);
    assert Required(StringField(o, "name")) == Some(a.name);
    StatusRoundTrip(a.status);
    assert ParseField(o, "status", ParseStatus) == Some(a.status);
    SourceRoundTrip(a.source);
    assert ParseField(o, "source", ParseSource) == Some(a.source);
    TargetRoundTrip(a.target);
    assert ParseField(o, "target", ParseTarget) == Some(a.target);
    assert "summary" !in extra;
    assert Optional(StringField(o, "summary")) == Some(a.summary);
    assert Required(StringField(o, "createdAt")) == Some(a.createdAt);
  }

  /** An object whose keys agree with `t`, whatever else it holds, is read as `t`; `autoCreatePr` may be left out when false. */
  lemma ParseTargetOf(j: Json, t: Target)
    requires j.JObj?
    requires Get(j, "branchName") == Some(JStr(t.branchName)) && Get(j, "url") == Some(JStr(t.url))
    requires OptionalAgrees(Get(j, "prUrl"), t.prUrl, Str)
    requires Get(j, "autoCreatePr") == Some(JBool(t.autoCreatePr)) || (!t.autoCreatePr && Get(j, "autoCreatePr").None?)
    requires OptionalAgrees(Get(j, "openAsCursorGithubApp"), t.openAsCursorGithubApp, Bool)
    requires OptionalAgrees(Get(j, "skipReviewerRequest"), t.skipReviewerRequest, Bool)
    ensures ParseTarget(j) == Some(t)
  {
  }

  /** An absent `autoCreatePr` is read as false. */
  lemma AutoCreatePrDefaultsToFalse(t: Target)
    requires !t.autoCreatePr
    ensures ParseTarget(JObj(TargetToJson(t).fields - {"autoCreatePr"})) == Some(t)
  {
    var full := TargetToJson(t);
    var j := JObj(full.fields - {"autoCreatePr"});
    forall key | key != "autoCreatePr"
      ensures Get(j, key) == Get(full, key)
    {
    }
    ParseTargetOf(j, t);
  }
}
