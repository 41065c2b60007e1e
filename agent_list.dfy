/**
 * The agent registry view: the search and type filter, the actions each row
 * offers for its agent's status, the risk-score bands, and the pending
 * command (selected agent and action) that the confirmation modal executes.
 */
module AgentList {
  import opened Wrappers
  import opened Types
  import opened Text
  import opened App

  // ---------------------------------------------------------------------------
  // Search and type filter

  /** The choices of the type-filter buttons; HYBRID has none. */
  const TypeFilterOptions: seq<string> := ["ALL", "PHYSICAL", "INFO"]

  /** The name matches case-insensitively, or the id matches case-sensitively. */
  predicate MatchesSearch(a: Agent, filterText: string) {
    Includes(ToLower(a.name), ToLower(filterText)) || Includes(a.id, filterText)
  }

  predicate MatchesType(a: Agent, typeFilter: string) {
    typeFilter == "ALL" || TypeName(a.agentType) == typeFilter
  }

  /** The row of agent a is shown under the given search text and type filter. */
  predicate Shown(a: Agent, filterText: string, typeFilter: string) {
    MatchesSearch(a, filterText) && MatchesType(a, typeFilter)
  }

  /** r can be obtained from s by deleting elements, keeping the order of the rest. */
  ghost predicate IsSubsequence<T>(r: seq<T>, s: seq<T>) {
    r == [] || (s != [] && (IsSubsequence(r, s[1..]) || (r[0] == s[0] && IsSubsequence(r[1..], s[1..]))))
  }

  /** `filteredAgents`: the shown agents, in roster order. */
  function FilterAgents(agents: seq<Agent>, filterText: string, typeFilter: string): (r: seq<Agent>)
    ensures forall a :: a in r <==> a in agents && Shown(a, filterText, typeFilter)
    ensures forall a :: multiset(r)[a] == if Shown(a, filterText, typeFilter) then multiset(agents)[a] else 0
    ensures IsSubsequence(r, agents)
  {
    if agents == [] then []
    else
      var rest := FilterAgents(agents[1..], filterText, typeFilter);
      assert multiset(agents) == multiset([agents[0]]) + multiset(agents[1..]) by {
        assert agents == [agents[0]] + agents[1..];
      }
      if Shown(agents[0], filterText, typeFilter) then [agents[0]] + rest
      else
        assert rest == [] || IsSubsequence(rest, agents[1..]);
        rest
  }

  /** The search text matches as a substring: of the lower-cased name, or of the id. */
  lemma MatchesSearchIff(a: Agent, filterText: string)
    ensures MatchesSearch(a, filterText) <==>
      (exists i: nat :: OccursAt(ToLower(a.name), ToLower(filterText), i)) ||
      (exists j: nat :: OccursAt(a.id, filterText, j))
  {
    assert MatchesSearch(a, filterText) ==
      (Includes(ToLower(a.name), ToLower(filterText)) || Includes(a.id, filterText));
  }

  /** With no search text and the ALL filter, the whole roster is shown. */
  lemma {:induction false} EmptySearchShowsAll(agents: seq<Agent>)
    ensures FilterAgents(agents, "", "ALL") == agents
  {
    if agents != [] {
      IncludesEmpty(ToLower(agents[0].name));
      EmptySearchShowsAll(agents[1..]);
    }
  }

  /** Under any filter button but ALL, a HYBRID agent is hidden. */
  lemma HybridOnlyUnderAll(a: Agent, filterText: string, typeFilter: string)
    requires typeFilter in TypeFilterOptions
    requires a.agentType == Hybrid
    ensures Shown(a, filterText, typeFilter) ==> typeFilter == "ALL"
  {
  }

  /** Under a type's filter value, only agents of that type are shown. */
  lemma TypeFilterSelectsType(a: Agent, filterText: string, t: AgentType)
    ensures Shown(a, filterText, TypeName(t)) ==> a.agentType == t
  {
    TypeNamesDistinct(a.agentType, t);
  }

  // ---------------------------------------------------------------------------
  // Row actions

  /** The action buttons of a row: pause and stop while running, resume while paused or stopped. */
  function OfferedActions(s: AgentStatus): (r: seq<AgentStatus>)
    ensures s !in r
    ensures Quarantined !in r
  {
    match s
    case Running => [Paused, Stopped]
    case Paused => [Running]
    case Stopped => [Running]
    case Quarantined => []
  }

  /** Which action is offered for which status, stated as an equivalence for every pair. */
  lemma OfferedActionsIff(s: AgentStatus, action: AgentStatus)
    ensures action in OfferedActions(s) <==>
      (s == Running && IsLoggedStatus(action) && action != Quarantined) ||
      ((s == Paused || s == Stopped) && action == Running)
  {
  }

  /**
   * With unique ids, no action offered in the registry moves an agent into or
   * out of QUARANTINED.
   */
  lemma OfferedActionKeepsQuarantine(agents: seq<Agent>, k: nat, action: AgentStatus, i: nat)
    requires UniqueIds(agents)
    requires k < |agents| && action in OfferedActions(agents[k].status)
    requires i < |agents|
    ensures (SetStatusById(agents, agents[k].id, action)[i].status == Quarantined) == (agents[i].status == Quarantined)
  {
    var r := SetStatusById(agents, agents[k].id, action);
    if agents[i].id == agents[k].id {
      assert i == k;
      assert r[i].status == action;
    } else {
      assert r[i] == agents[i];
    }
  }

  /** The cascade does not move an agent into or out of QUARANTINED either. */
  lemma CascadeKeepsQuarantine(agents: seq<Agent>, i: nat)
    requires i < |agents|
    ensures (CascadeRoster(agents)[i].status == Quarantined) == (agents[i].status == Quarantined)
  {
  }

  // ---------------------------------------------------------------------------
  // Risk bands

  datatype RiskBand = LowRisk | MediumRisk | HighRisk

  /**
   * The colour class of the risk bar: above 80 is high, above 50 medium,
   * otherwise low. The score figure beside it is highlighted in the high band.
   */
  function RiskBandOf(score: RiskScore): (b: RiskBand)
    ensures b == HighRisk <==> score > 80
    ensures b == MediumRisk <==> 50 < score <= 80
    ensures b == LowRisk <==> score <= 50
  {
    if score > 80 then HighRisk else if score > 50 then MediumRisk else LowRisk
  }

  function BandRank(b: RiskBand): nat {
    match b
    case LowRisk => 0
    case MediumRisk => 1
    case HighRisk => 2
  }

  /** A higher score never falls in a lower band. */
  lemma RiskBandMonotone(s: RiskScore, t: RiskScore)
    requires s <= t
    ensures BandRank(RiskBandOf(s)) <= BandRank(RiskBandOf(t))
  {
  }

  // ---------------------------------------------------------------------------
  // The registry view's state

  class RegistryView {
    var filterText: string
    var typeFilter: string
    var selectedAgent: Option<Agent>
    var actionType: Option<AgentStatus>

    /**
     * The type filter is one of its buttons' values, and the selected agent and
     * action are set and cleared together, the action being one the agent's row offered.
     */
    ghost predicate Valid()
      reads this
    {
      && typeFilter in TypeFilterOptions
      && selectedAgent.Some? == actionType.Some?
      && (selectedAgent.Some? ==> actionType.value in OfferedActions(selectedAgent.value.status))
    }

    /** The rows currently shown for a roster. */
    function Visible(agents: seq<Agent>): seq<Agent>
      reads this
    {
      FilterAgents(agents, filterText, typeFilter)
    }

    constructor ()
      ensures Valid()
      ensures filterText == "" && typeFilter == "ALL"
      ensures selectedAgent.None? && actionType.None?
    {
      filterText := "";
      typeFilter := "ALL";
      selectedAgent := None;
      actionType := None;
    }

    /** The search input's `onChange`. */
    method SetFilterText(text: string)
      requires Valid()
      modifies this
      ensures Valid()
      ensures filterText == text
      ensures typeFilter == old(typeFilter) && selectedAgent == old(selectedAgent) && actionType == old(actionType)
    {
      filterText := text;
    }

    /** One of the type-filter buttons. */
    method SetTypeFilter(t: string)
      requires Valid() && t in TypeFilterOptions
      modifies this
      ensures Valid()
      ensures typeFilter == t
      ensures filterText == old(filterText) && selectedAgent == old(selectedAgent) && actionType == old(actionType)
    {
      typeFilter := t;
    }

    /** An action button on a shown row: select the agent and the action, opening the modal. */
    method ChooseAction(fleet: Fleet, agent: Agent, action: AgentStatus)
      requires Valid()
      requires agent in Visible(fleet.agents) && action in OfferedActions(agent.status)
      modifies this
      ensures Valid()
      ensures selectedAgent == Some(agent) && actionType == Some(action)
      ensures filterText == old(filterText) && typeFilter == old(typeFilter)
    {
      selectedAgent := Some(agent);
      actionType := Some(action);
    }

    /**
     * `confirmAction`: with both agent and action chosen, issue the status
     * change once for the agent's id and clear the choice; otherwise do nothing.
     */
    method ConfirmAction(fleet: Fleet, now: Clock)
      requires Valid()
      modifies this, fleet
      ensures Valid()
      ensures selectedAgent.None? && actionType.None?
      ensures filterText == old(filterText) && typeFilter == old(typeFilter)
      ensures old(selectedAgent).Some? && old(actionType).Some? ==>
        && fleet.globalState == old(fleet.globalState)
        && fleet.agents == SetStatusById(old(fleet.agents), old(selectedAgent).value.id, old(actionType).value)
        && fleet.incidents == LogManualChange(old(fleet.incidents), old(fleet.agents),
                                              old(selectedAgent).value.id, old(actionType).value, now)
      ensures old(selectedAgent).None? || old(actionType).None? ==> unchanged(fleet)
    {
      if selectedAgent.Some? && actionType.Some? {
        fleet.UpdateStatus(selectedAgent.value.id, actionType.value, now);
        selectedAgent := None;
        actionType := None;
      }
    }

    /** Cancel: clear the choice without issuing anything. */
    method Cancel()
      requires Valid()
      modifies this
      ensures Valid()
      ensures selectedAgent.None? && actionType.None?
      ensures filterText == old(filterText) && typeFilter == old(typeFilter)
    {
      selectedAgent := None;
      actionType := None;
    }
  }
}
