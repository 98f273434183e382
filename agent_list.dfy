/**
 * The agent hierarchy browser: a breadcrumb trail that starts at Root, grows by one entry
 * when the user drills into an agent and is cut back to a prefix when the user clicks an
 * earlier entry; each move fetches the agents one level down from the chosen entry.
 *
 * A fetch is split into the request it issues (`FetchAgents`, which returns the query
 * parameters) and the handling of its reply (`SettleFetch`), since the round trip to the
 * server happens in between.
 */
module AgentList {
  import opened Wrappers

  datatype AgentState = Active | Disabled

  datatype Agent = Agent(
    id: int,
    account: string,
    siteCode: string,
    level: int,
    parentId: Option<int>,
    balance: real,
    percent: real,
    state: AgentState,
    createdAt: string)

  /** One entry of the trail; Root is the only entry without an id. */
  datatype BreadcrumbItem = BreadcrumbItem(text: string, id: Option<int>, level: int)

  const Root := BreadcrumbItem("Root", None, 0)

  // ---------------------------------------------------------------------------
  // Query parameters

  /** One query parameter; values are numbers, written out with `String` when the URL is built. */
  datatype Param = Param(name: string, value: int)

  type Query = seq<Param>

  /** The value of the first parameter called `name`, as `URLSearchParams.get` finds it. */
  function Get(q: Query, name: string): (v: Option<int>)
    ensures v.Some? <==> exists i :: 0 <= i < |q| && q[i].name == name
  {
    if |q| == 0 then None
    else if q[0].name == name then Some(q[0].value)
    else Get(q[1..], name)
  }

  /** The query of a fetch: `parent_id` only for a truthy (non-null, nonzero) parent, then `level`. */
  function BuildQuery(parentId: Option<int>, level: int): (q: Query)
    ensures Get(q, "level") == Some(level)
    ensures Get(q, "parent_id") == (if parentId.Some? && parentId.value != 0 then parentId else None)
    ensures |q| == (if parentId.Some? && parentId.value != 0 then 2 else 1)
    ensures q[|q| - 1] == Param("level", level)
  {
    var levelParam := [Param("level", level)];
    if parentId.Some? && parentId.value != 0 then [Param("parent_id", parentId.value)] + levelParam
    else levelParam
  }

  // ---------------------------------------------------------------------------
  // The trail

  /** The entry a drill-down adds: the agent's account, id and level; it is never Root, which has no id. */
  function ItemFor(agent: Agent): (item: BreadcrumbItem)
    ensures item.text == agent.account && item.id == Some(agent.id) && item.level == agent.level
    ensures item != Root
  {
    BreadcrumbItem(agent.account, Some(agent.id), agent.level)
  }

  /** The trail after drilling into `agent`. */
  function DrillDown(trail: seq<BreadcrumbItem>, agent: Agent): (t: seq<BreadcrumbItem>)
    ensures |t| == |trail| + 1 && t[..|trail|] == trail && t[|trail|] == ItemFor(agent)
  {
    trail + [ItemFor(agent)]
  }

  /** `s.slice(0, end)` with JavaScript's rules: a negative end counts from the back, and both ends are clamped. */
  function SlicePrefix<T>(s: seq<T>, end: int): (r: seq<T>)
    ensures 0 <= end <= |s| ==> r == s[..end]
    ensures end > |s| ==> r == s
    ensures end < 0 ==> r == s[..if |s| + end < 0 then 0 else |s| + end]
  {
    var e := if end < 0 then (if |s| + end < 0 then 0 else |s| + end)
             else if end > |s| then |s| else end;
    s[..e]
  }

  /**
   * The trail after a click on the entry at `index`: unchanged on the last entry, otherwise
   * cut after it. A click on an earlier entry keeps exactly the entries up to and including
   * it. A click position outside the trail is not guarded: index -1 is read by `slice` as an
   * end of 0 and empties the trail, Root included.
   */
  function Click(trail: seq<BreadcrumbItem>, index: int): (t: seq<BreadcrumbItem>)
    ensures 0 <= index < |trail| - 1 ==> t == trail[..index + 1] && |t| == index + 1 && t[index] == trail[index]
    ensures |trail| > 0 && index == |trail| - 1 ==> t == trail
    ensures |trail| > 0 && index == -1 ==> t == []
  {
    if index == |trail| - 1 then trail else SlicePrefix(trail, index + 1)
  }

  /** Every click on an entry of the trail leaves a non-empty prefix of it. */
  lemma ClickIsPrefix(trail: seq<BreadcrumbItem>, index: int)
    requires 0 <= index < |trail|
    ensures var t := Click(trail, index);
      0 < |t| <= |trail| && t == trail[..|t|]
  {
  }

  /** A trail starts at Root. */
  predicate RootFirst(trail: seq<BreadcrumbItem>) {
    |trail| > 0 && trail[0] == Root
  }

  // ---------------------------------------------------------------------------
  // Sequences of user actions

  datatype Action = DrillInto(agent: Agent) | ClickAt(index: int)

  function Step(trail: seq<BreadcrumbItem>, a: Action): seq<BreadcrumbItem> {
    match a
    case DrillInto(agent) => DrillDown(trail, agent)
    case ClickAt(index) => Click(trail, index)
  }

  /** Every click in `acts` is on an entry of the trail as it is at that moment. */
  predicate ClicksOnTrail(trail: seq<BreadcrumbItem>, acts: seq<Action>)
    decreases |acts|
  {
    |acts| > 0 ==>
      && (acts[0].ClickAt? ==> 0 <= acts[0].index < |trail|)
      && ClicksOnTrail(Step(trail, acts[0]), acts[1..])
  }

  function Replay(trail: seq<BreadcrumbItem>, acts: seq<Action>): seq<BreadcrumbItem>
    decreases |acts|
  {
    if |acts| == 0 then trail else Replay(Step(trail, acts[0]), acts[1..])
  }

  /** One action either appends exactly one entry or cuts the trail to a non-empty prefix. */
  lemma StepGrowsOrCuts(trail: seq<BreadcrumbItem>, a: Action)
    requires a.ClickAt? ==> 0 <= a.index < |trail|
    ensures var t := Step(trail, a);
      || (a.DrillInto? && t == trail + [ItemFor(a.agent)])
      || (a.ClickAt? && 0 < |t| <= |trail| && t == trail[..|t|])
  {
    if a.ClickAt? {
      ClickIsPrefix(trail, a.index);
    }
  }

  /** Root stays first through any sequence of drill-downs and clicks on the trail. */
  lemma {:induction false} ReplayKeepsRoot(trail: seq<BreadcrumbItem>, acts: seq<Action>)
    requires RootFirst(trail)
    requires ClicksOnTrail(trail, acts)
    ensures RootFirst(Replay(trail, acts))
    decreases |acts|
  {
    if |acts| > 0 {
      var next := Step(trail, acts[0]);
      StepGrowsOrCuts(trail, acts[0]);
      assert next[0] == trail[0];
      ReplayKeepsRoot(next, acts[1..]);
    }
  }

  // ---------------------------------------------------------------------------
  // Replies

  /** What a fetch brings back: a decoded body, or a failure of the request or of decoding. */
  datatype Reply = Body(code: int, msg: Option<string>, list: seq<Agent>) | NetworkFailure

  const FetchFailed := "Failed to fetch agents"
  const NetworkError := "Network Error"

  /** The agents shown after a reply: replaced on code 0, kept otherwise. */
  function AgentsAfter(agents: seq<Agent>, reply: Reply): (r: seq<Agent>)
    ensures reply.Body? && reply.code == 0 ==> r == reply.list
    ensures !(reply.Body? && reply.code == 0) ==> r == agents
  {
    if reply.Body? && reply.code == 0 then reply.list else agents
  }

  /** The error message shown after a reply, if any; an empty or missing `msg` falls back to a fixed text. */
  function NoticeFor(reply: Reply): (n: Option<string>)
    ensures n.None? <==> reply.Body? && reply.code == 0
    ensures reply.NetworkFailure? ==> n == Some(NetworkError)
    ensures reply.Body? && reply.code != 0 && reply.msg.Some? && reply.msg.value != "" ==> n == reply.msg
    ensures reply.Body? && reply.code != 0 && (reply.msg.None? || reply.msg.value == "") ==> n == Some(FetchFailed)
  {
    match reply
    case NetworkFailure => Some(NetworkError)
    case Body(code, msg, _) =>
      if code == 0 then None
      else if msg.Some? && msg.value != "" then msg
      else Some(FetchFailed)
  }

  // ---------------------------------------------------------------------------
  // The composable's state

  class AgentListState {
    var loading: bool
    var agents: seq<Agent>
    var breadcrumbs: seq<BreadcrumbItem>

    /** The trail starts at Root. */
    ghost predicate Valid()
      reads this
    {
      RootFirst(breadcrumbs)
    }

    constructor()
      ensures !loading && agents == [] && breadcrumbs == [Root]
      ensures Valid()
    {
      loading := false;
      agents := [];
      breadcrumbs := [Root];
    }

    /** Starts a fetch of the agents under `parentId` at `level`, returning its query. */
    method FetchAgents(parentId: Option<int> := None, level: int := 0) returns (q: Query)
      modifies this
      ensures loading
      ensures q == BuildQuery(parentId, level)
      ensures agents == old(agents) && breadcrumbs == old(breadcrumbs)
    {
      loading := true;
      q := BuildQuery(parentId, level);
    }

    /** Finishes a fetch with its reply, returning the error message to show, if any. */
    method SettleFetch(reply: Reply) returns (notice: Option<string>)
      modifies this
      ensures !loading
      ensures agents == AgentsAfter(old(agents), reply)
      ensures notice == NoticeFor(reply)
      ensures breadcrumbs == old(breadcrumbs)
    {
      notice := None;
      if reply.Body? {
        if reply.code == 0 {
          agents := reply.list;
        } else if reply.msg.Some? && reply.msg.value != "" {
          notice := reply.msg;
        } else {
          notice := Some(FetchFailed);
        }
      } else {
        notice := Some(NetworkError);
      }
      loading := false;
    }

    /** Appends the agent to the trail and starts fetching its children. */
    method HandleDrillDown(agent: Agent) returns (q: Query)
      modifies this
      ensures breadcrumbs == DrillDown(old(breadcrumbs), agent)
      ensures old(Valid()) ==> Valid()
      ensures loading && agents == old(agents)
      ensures q == BuildQuery(Some(agent.id), agent.level)
    {
      breadcrumbs := breadcrumbs + [ItemFor(agent)];
      q := FetchAgents(Some(agent.id), agent.level);
    }

    /**
     * Handles a click on `item` at `index`: nothing happens on the last entry; otherwise the
     * trail is cut after `index` and the agents under `item` are fetched.
     */
    method HandleBreadcrumbClick(item: BreadcrumbItem, index: int) returns (q: Option<Query>)
      modifies this
      ensures breadcrumbs == Click(old(breadcrumbs), index)
      ensures old(Valid()) && 0 <= index < |old(breadcrumbs)| ==> Valid()
      ensures q.None? <==> index == |old(breadcrumbs)| - 1
      ensures q.None? ==> loading == old(loading)
      ensures q.Some? ==> loading && q.value == BuildQuery(item.id, item.level)
      ensures agents == old(agents)
    {
      if index == |breadcrumbs| - 1 {
        return None;
      }
      if 0 <= index < |breadcrumbs| {
        ClickIsPrefix(breadcrumbs, index);
      }
      breadcrumbs := SlicePrefix(breadcrumbs, index + 1);
      var query := FetchAgents(item.id, item.level);
      q := Some(query);
    }
  }
}
