/**
 * The console's root component: the three state cells (global state, agent
 * roster, incident log), the effect that cascades an emergency stop into the
 * roster, and the manual status-change handler. The new value of each cell is
 * computed by a pure function below; the class Fleet applies them.
 */
module App {
  import opened Wrappers
  import opened Types
  import opened Text

  /** A reading of the wall clock: `Date.now()` and the formatted `new Date()`. */
  datatype Clock = Clock(millis: nat, timestamp: string)

  const GlobalAgentId := "GLOBAL"
  const GlobalAgentName := "ALL AGENTS"
  const EmergencyReason := "Global Emergency Stop triggered by Operator"
  const EmergencyActor := "Operator (Admin)"
  const ManualActor := "Operator (John Doe)"
  const ManualReasonPrefix := "Manual status change to "
  const UnknownAgentName := "Unknown"

  /** The id of an incident created at the given millisecond: `inc-<millis>`. */
  function IncidentId(millis: nat): (r: string)
    ensures |r| > 4 && r[..4] == "inc-"
    ensures AllDigits(r[4..]) && DecimalValue(r[4..]) == millis
  {
    assert ("inc-" + Decimal(millis))[4..] == Decimal(millis);
    DecimalRoundTrip(millis);
    "inc-" + Decimal(millis)
  }

  /** Incidents created at different milliseconds get different ids. */
  lemma IncidentIdInjective(m: nat, n: nat)
    ensures IncidentId(m) == IncidentId(n) <==> m == n
  {
    if IncidentId(m) == IncidentId(n) {
      assert Decimal(m) == IncidentId(m)[4..];
      assert Decimal(n) == IncidentId(n)[4..];
      DecimalInjective(m, n);
    }
  }

  // ---------------------------------------------------------------------------
  // Emergency cascade

  /** The statuses the cascade forces to STOPPED. */
  predicate IsActive(s: AgentStatus) {
    s == Running || s == Paused
  }

  /** The roster after the cascade: every RUNNING or PAUSED agent becomes STOPPED. */
  function CascadeRoster(agents: seq<Agent>): (r: seq<Agent>)
    ensures |r| == |agents|
    ensures forall i :: 0 <= i < |agents| && IsActive(agents[i].status) ==> r[i].status == Stopped
    ensures forall i :: 0 <= i < |agents| && !IsActive(agents[i].status) ==> r[i] == agents[i]
    ensures forall i :: 0 <= i < |agents| ==> r[i] == agents[i].(status := r[i].status)
  {
    if agents == [] then []
    else
      var a := agents[0];
      [if IsActive(a.status) then a.(status := Stopped) else a] + CascadeRoster(agents[1..])
  }

  /** After the cascade no agent is RUNNING or PAUSED. */
  lemma CascadeLeavesNoneActive(agents: seq<Agent>)
    ensures forall a :: a in CascadeRoster(agents) ==> !IsActive(a.status)
    ensures forall a :: a in CascadeRoster(agents) ==> a.status == Stopped || a.status == Quarantined
  {
  }

  /** Running the cascade over its own result changes nothing. */
  lemma {:induction false} CascadeIdempotent(agents: seq<Agent>)
    ensures CascadeRoster(CascadeRoster(agents)) == CascadeRoster(agents)
  {
    var once := CascadeRoster(agents);
    var twice := CascadeRoster(once);
    forall i | 0 <= i < |agents| ensures twice[i] == once[i] {
      assert !IsActive(once[i].status);
    }
  }

  /** The single fleet-wide incident recorded by a cascade. */
  function EmergencyIncident(now: Clock): (inc: Incident)
  {
    Incident(IncidentId(now.millis), now.timestamp, GlobalAgentId, GlobalAgentName,
             EmergencyStop, Critical, EmergencyReason, EmergencyActor, false)
  }

  /** The log after a cascade: exactly one new incident in front of the old log. */
  function LogCascade(incidents: seq<Incident>, now: Clock): (r: seq<Incident>)
    ensures |r| == |incidents| + 1 && r[1..] == incidents
    ensures r[0].agentId == "GLOBAL" && r[0].agentName == "ALL AGENTS"
    ensures r[0].kind == EmergencyStop && r[0].severity == Critical
    ensures r[0].actor == "Operator (Admin)" && !r[0].resolved
    ensures r[0].reason == "Global Emergency Stop triggered by Operator"
    ensures r[0].id == IncidentId(now.millis) && r[0].timestamp == now.timestamp
  {
    [EmergencyIncident(now)] + incidents
  }

  // ---------------------------------------------------------------------------
  // Manual status change

  /** The roster after a status change: every agent with the id gets the new status. */
  function SetStatusById(agents: seq<Agent>, id: string, newStatus: AgentStatus): (r: seq<Agent>)
    ensures |r| == |agents|
    ensures forall i :: 0 <= i < |agents| && agents[i].id == id ==> r[i].status == newStatus
    ensures forall i :: 0 <= i < |agents| && agents[i].id != id ==> r[i] == agents[i]
    ensures forall i :: 0 <= i < |agents| ==> r[i] == agents[i].(status := r[i].status)
  {
    if agents == [] then []
    else
      var a := agents[0];
      [if a.id == id then a.(status := newStatus) else a] + SetStatusById(agents[1..], id, newStatus)
  }

  /** A status change naming no agent of the roster leaves the roster as it was. */
  lemma UnknownIdKeepsRoster(agents: seq<Agent>, id: string, newStatus: AgentStatus)
    requires forall a :: a in agents ==> a.id != id
    ensures SetStatusById(agents, id, newStatus) == agents
  {
    var r := SetStatusById(agents, id, newStatus);
    assert forall i :: 0 <= i < |agents| ==> r[i] == agents[i];
  }

  /** Position i holds the first agent of the roster with the given id. */
  predicate IsFirstWithId(agents: seq<Agent>, id: string, i: nat) {
    i < |agents| && agents[i].id == id && forall j :: 0 <= j < i ==> agents[j].id != id
  }

  /** `agents.find(a => a.id === id)`: the first agent with the id, if any. */
  function FindAgent(agents: seq<Agent>, id: string): (r: Option<Agent>)
    ensures r.None? <==> forall a :: a in agents ==> a.id != id
    ensures r.Some? ==> exists i: nat :: IsFirstWithId(agents, id, i) && agents[i] == r.value
  {
    if agents == [] then None
    else if agents[0].id == id then
      assert IsFirstWithId(agents, id, 0);
      Some(agents[0])
    else
      var r := FindAgent(agents[1..], id);
      assert r.Some? ==> exists i: nat :: IsFirstWithId(agents, id, i) && agents[i] == r.value by {
        if r.Some? {
          var k: nat :| IsFirstWithId(agents[1..], id, k) && agents[1..][k] == r.value;
          assert IsFirstWithId(agents, id, k + 1);
        }
      }
      r
  }

  /** `agent?.name || 'Unknown'`: the name recorded on a manual-stop incident. */
  function IncidentAgentName(agents: seq<Agent>, id: string): (name: string)
    ensures (forall a :: a in agents ==> a.id != id) ==> name == "Unknown"
    ensures name != "Unknown" ==> exists a :: a in agents && a.id == id && a.name == name
    ensures (exists i: nat :: IsFirstWithId(agents, id, i) && agents[i].name == "") ==> name == "Unknown"
  {
    match FindAgent(agents, id)
    case Some(a) => if a.name != "" then a.name else UnknownAgentName
    case None => UnknownAgentName
  }

  /** The first match's name is recorded when it is not empty. */
  lemma KnownIdIncidentName(agents: seq<Agent>, id: string, i: nat)
    requires IsFirstWithId(agents, id, i) && agents[i].name != ""
    ensures IncidentAgentName(agents, id) == agents[i].name
  {
    var r := FindAgent(agents, id);
    var k: nat :| IsFirstWithId(agents, id, k) && agents[k] == r.value;
    assert k == i;
  }

  /**
   * The handler looks the name up in the roster it saw before the change; since
   * a status change renames nobody, the roster after it yields the same name.
   */
  lemma {:induction false} NameUnaffectedByUpdate(agents: seq<Agent>, id: string, s: AgentStatus, other: string)
    ensures FindAgent(SetStatusById(agents, id, s), other).Some? == FindAgent(agents, other).Some?
    ensures FindAgent(agents, other).Some? ==>
      FindAgent(SetStatusById(agents, id, s), other).value.name == FindAgent(agents, other).value.name
    ensures IncidentAgentName(SetStatusById(agents, id, s), other) == IncidentAgentName(agents, other)
  {
    if agents != [] {
      var r := SetStatusById(agents, id, s);
      assert r[0].id == agents[0].id && r[0].name == agents[0].name;
      if agents[0].id != other {
        assert r[1..] == SetStatusById(agents[1..], id, s);
        NameUnaffectedByUpdate(agents[1..], id, s, other);
      }
    }
  }

  /** The statuses whose manual setting is logged as an intervention. */
  predicate IsLoggedStatus(s: AgentStatus) {
    s == Stopped || s == Paused || s == Quarantined
  }

  /** The incident recorded for a manual change of agent id to status s. */
  function ManualIncident(agents: seq<Agent>, id: string, s: AgentStatus, now: Clock): (inc: Incident)
  {
    Incident(IncidentId(now.millis), now.timestamp, id, IncidentAgentName(agents, id),
             ManualStop, High, ManualReasonPrefix + StatusName(s), ManualActor, true)
  }

  /** The log after a manual change: one incident in front for a stop-like status, none for RUNNING. */
  function LogManualChange(incidents: seq<Incident>, agents: seq<Agent>, id: string, s: AgentStatus, now: Clock)
    : (r: seq<Incident>)
    ensures s == Running <==> r == incidents
    ensures IsLoggedStatus(s) ==> |r| == |incidents| + 1 && r[1..] == incidents
    ensures IsLoggedStatus(s) ==>
      && r[0].agentId == id
      && r[0].agentName == IncidentAgentName(agents, id)
      && r[0].kind == ManualStop && r[0].severity == High && r[0].resolved
      && r[0].actor == "Operator (John Doe)"
      && r[0].reason == "Manual status change to " + StatusName(s)
      && r[0].id == IncidentId(now.millis) && r[0].timestamp == now.timestamp
  {
    if IsLoggedStatus(s) then [ManualIncident(agents, id, s, now)] + incidents else incidents
  }

  /** An unknown id changes no agent, yet a stop-like change is still logged, against 'Unknown'. */
  lemma UnknownIdStillLogged(incidents: seq<Incident>, agents: seq<Agent>, id: string, s: AgentStatus, now: Clock)
    requires forall a :: a in agents ==> a.id != id
    requires IsLoggedStatus(s)
    ensures SetStatusById(agents, id, s) == agents
    ensures |LogManualChange(incidents, agents, id, s, now)| == |incidents| + 1
    ensures LogManualChange(incidents, agents, id, s, now)[0].agentName == "Unknown"
  {
    UnknownIdKeepsRoster(agents, id, s);
  }

  // ---------------------------------------------------------------------------
  // Identity of agents

  /** No two agents of the roster share an id (assumed of the seed data, never enforced). */
  predicate UniqueIds(agents: seq<Agent>) {
    forall i, j :: 0 <= i < |agents| && 0 <= j < |agents| && agents[i].id == agents[j].id ==> i == j
  }

  /** Neither the cascade nor a status change touches an id, so both keep ids unique. */
  lemma IdsPreserved(agents: seq<Agent>, id: string, s: AgentStatus)
    ensures forall i :: 0 <= i < |agents| ==>
      CascadeRoster(agents)[i].id == agents[i].id && SetStatusById(agents, id, s)[i].id == agents[i].id
    ensures UniqueIds(agents) ==> UniqueIds(CascadeRoster(agents)) && UniqueIds(SetStatusById(agents, id, s))
  {
  }

  // ---------------------------------------------------------------------------
  // The console state

  class Fleet {
    var globalState: GlobalState
    var agents: seq<Agent>
    var incidents: seq<Incident>

    /** The initial roster and log come from mock data; the global state starts NORMAL. */
    constructor (initialAgents: seq<Agent>, initialIncidents: seq<Incident>)
      ensures globalState == Normal
      ensures agents == initialAgents && incidents == initialIncidents
    {
      globalState := Normal;
      agents := initialAgents;
      incidents := initialIncidents;
    }

    /**
     * The body of the effect that runs once the global state has changed: in
     * EMERGENCY_MODE it stops every active agent and records one incident.
     */
    method TriggerCascade(now: Clock)
      modifies this
      ensures globalState == old(globalState)
      ensures globalState == EmergencyMode ==>
        agents == CascadeRoster(old(agents)) && incidents == LogCascade(old(incidents), now)
      ensures globalState != EmergencyMode ==>
        agents == old(agents) && incidents == old(incidents)
    {
      if globalState == EmergencyMode {
        agents := CascadeRoster(agents);
        incidents := LogCascade(incidents, now);
      }
    }

    /**
     * `setGlobalState` followed by the effect it schedules. The effect depends on
     * the global state, so it runs only when the value actually changes.
     */
    method SetGlobalState(state: GlobalState, now: Clock)
      modifies this
      ensures globalState == state
      ensures state == EmergencyMode && old(globalState) != EmergencyMode ==>
        agents == CascadeRoster(old(agents)) && incidents == LogCascade(old(incidents), now)
      ensures state != EmergencyMode || old(globalState) == EmergencyMode ==>
        agents == old(agents) && incidents == old(incidents)
    {
      if state != globalState {
        globalState := state;
        TriggerCascade(now);
      }
    }

    /** `handleAgentStatusUpdate`: set the status by id and log a stop-like change. */
    method UpdateStatus(id: string, newStatus: AgentStatus, now: Clock)
      modifies this
      ensures globalState == old(globalState)
      ensures agents == SetStatusById(old(agents), id, newStatus)
      ensures incidents == LogManualChange(old(incidents), old(agents), id, newStatus, now)
    {
      var before := agents;
      agents := SetStatusById(agents, id, newStatus);
      incidents := LogManualChange(incidents, before, id, newStatus, now);
    }
  }
}
