/** The stock optional-value wrapper, used for nullable React state and `Array.find`. */
module Wrappers {
  datatype Option<+T> = None | Some(value: T)
}

/**
 * The enums and records of the console's data model. Each TypeScript string
 * enum becomes a datatype; the string each member stands for at run time is
 * given by a Name function, because the source compares and prints those strings.
 */
module Types {

  datatype AgentStatus = Running | Paused | Stopped | Quarantined

  datatype AgentType = Physical | Info | Hybrid

  datatype IncidentSeverity = Critical | High | Medium | Low

  /** The string-literal union of an incident's `type` field. */
  datatype IncidentKind = AutoStop | ManualStop | EmergencyStop

  datatype GlobalState = Normal | PartialStop | EmergencyMode

  /** The documented 0-100 range of an agent's risk score, kept as a type invariant. */
  type RiskScore = x: int | 0 <= x <= 100

  datatype Agent = Agent(
    id: string,
    name: string,
    agentType: AgentType,
    status: AgentStatus,
    project: string,
    lastActive: string,
    riskScore: RiskScore,
    policy: string)

  datatype Incident = Incident(
    id: string,
    timestamp: string,
    agentId: string,
    agentName: string,
    kind: IncidentKind,
    severity: IncidentSeverity,
    reason: string,
    actor: string,
    resolved: bool)

  /** The string value of each AgentStatus member. */
  function StatusName(s: AgentStatus): (r: string)
    ensures |r| > 0
  {
    match s
    case Running => "RUNNING"
    case Paused => "PAUSED"
    case Stopped => "STOPPED"
    case Quarantined => "QUARANTINED"
  }

  /** The string value of each AgentType member. */
  function TypeName(t: AgentType): (r: string)
    ensures |r| > 0
  {
    match t
    case Physical => "PHYSICAL"
    case Info => "INFO"
    case Hybrid => "HYBRID"
  }

  /** Distinct statuses have distinct strings, so string comparison decides the member. */
  lemma StatusNamesDistinct(s: AgentStatus, t: AgentStatus)
    ensures StatusName(s) == StatusName(t) <==> s == t
  {
  }

  /** Distinct agent types have distinct strings, and none of them is "ALL". */
  lemma TypeNamesDistinct(s: AgentType, t: AgentType)
    ensures TypeName(s) == TypeName(t) <==> s == t
    ensures TypeName(s) != "ALL"
  {
  }
}
