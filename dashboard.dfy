/**
 * The control-room view: per-status agent counts, the five-row incident
 * preview, and the emergency-stop panel with its confirmation modal.
 */
module Dashboard {
  import opened Types
  import opened Text
  import opened App

  // ---------------------------------------------------------------------------
  // Status counts

  /** `agents.filter(a => a.status === s).length`. */
  function CountStatus(agents: seq<Agent>, s: AgentStatus): (n: nat)
    ensures n <= |agents|
  {
    if agents == [] then 0
    else (if agents[0].status == s then 1 else 0) + CountStatus(agents[1..], s)
  }

  /** A count is 0 exactly when no agent has the status, and the total exactly when all do. */
  lemma {:induction false} CountStatusExtremes(agents: seq<Agent>, s: AgentStatus)
    ensures CountStatus(agents, s) == 0 <==> forall a :: a in agents ==> a.status != s
    ensures CountStatus(agents, s) == |agents| <==> forall a :: a in agents ==> a.status == s
  {
    if agents != [] {
      CountStatusExtremes(agents[1..], s);
      assert forall a :: a in agents <==> a == agents[0] || a in agents[1..];
    }
  }

  datatype StatusCounts = StatusCounts(running: nat, paused: nat, stopped: nat, quarantined: nat, total: nat)

  /** Every agent is in exactly one of the four classes, so the counts add up to the roster size. */
  lemma {:induction false} CountsPartition(agents: seq<Agent>)
    ensures CountStatus(agents, Running) + CountStatus(agents, Paused)
          + CountStatus(agents, Stopped) + CountStatus(agents, Quarantined) == |agents|
  {
    if agents != [] {
      CountsPartition(agents[1..]);
    }
  }

  /** The four status counts and the total shown on the dashboard. */
  function ComputeCounts(agents: seq<Agent>): (c: StatusCounts)
    ensures c.running == CountStatus(agents, Running) && c.paused == CountStatus(agents, Paused)
    ensures c.stopped == CountStatus(agents, Stopped) && c.quarantined == CountStatus(agents, Quarantined)
    ensures c.total == |agents|
    ensures c.running + c.paused + c.stopped + c.quarantined == c.total
  {
    CountsPartition(agents);
    StatusCounts(CountStatus(agents, Running), CountStatus(agents, Paused),
                 CountStatus(agents, Stopped), CountStatus(agents, Quarantined), |agents|)
  }

  /**
   * After a cascade nothing is running or paused, the stopped count absorbs
   * them, and the quarantined count is untouched.
   */
  lemma {:induction false} CascadeCounts(agents: seq<Agent>)
    ensures CountStatus(CascadeRoster(agents), Running) == 0
    ensures CountStatus(CascadeRoster(agents), Paused) == 0
    ensures CountStatus(CascadeRoster(agents), Stopped) ==
      CountStatus(agents, Running) + CountStatus(agents, Paused) + CountStatus(agents, Stopped)
    ensures CountStatus(CascadeRoster(agents), Quarantined) == CountStatus(agents, Quarantined)
  {
    if agents != [] {
      var r := CascadeRoster(agents);
      var a, b := agents[0], r[0];
      assert r[1..] == CascadeRoster(agents[1..]);
      CascadeCounts(agents[1..]);
      assert b.status == if IsActive(a.status) then Stopped else a.status;
    }
  }

  // ---------------------------------------------------------------------------
  // Incident preview

  function Min(a: nat, b: nat): nat { if a <= b then a else b }

  /** `incidents.slice(0, 5)`: the newest five incidents, in log order. */
  function RecentIncidents(incidents: seq<Incident>): (r: seq<Incident>)
    ensures |r| == Min(5, |incidents|)
    ensures r == incidents[..|r|]
  {
    if |incidents| <= 5 then incidents else incidents[..5]
  }

  /** After a cascade the preview opens with the emergency incident, then the four newest before it. */
  lemma PreviewAfterCascade(incidents: seq<Incident>, now: Clock)
    ensures RecentIncidents(LogCascade(incidents, now)) ==
      [EmergencyIncident(now)] + RecentIncidents(incidents)[..Min(4, |incidents|)]
  {
    var l := LogCascade(incidents, now);
    assert l == [EmergencyIncident(now)] + incidents;
    assert l[..Min(5, |l|)] == [EmergencyIncident(now)] + incidents[..Min(4, |incidents|)];
  }

  // ---------------------------------------------------------------------------
  // Emergency-stop panel

  /** The confirmation code the operator must type. */
  const ConfirmationCode := "STOP"

  /** The E-STOP button is rendered outside EMERGENCY_MODE. */
  predicate EStopOffered(g: GlobalState) { g != EmergencyMode }

  /** The Reset button is rendered in EMERGENCY_MODE. */
  predicate ResetOffered(g: GlobalState) { g == EmergencyMode }

  /** The Execute button's `disabled` attribute. */
  predicate ExecuteDisabled(text: string) { text != ConfirmationCode }

  /**
   * Because every keystroke is upper-cased before it is stored, typing an input
   * enables Execute exactly when the input spells STOP in any mix of cases.
   */
  lemma TypedInputEnablesExecute(input: string)
    ensures !ExecuteDisabled(ToUpper(input)) <==> SpellsUpToCase(input, ConfirmationCode)
  {
    ToUpperEqualsIff(input, ConfirmationCode);
  }

  /** Typing the lowercase word is accepted; an empty or padded input is not. */
  lemma LowercaseStopAccepted()
    ensures !ExecuteDisabled(ToUpper("stop"))
    ensures ExecuteDisabled(ToUpper("")) && ExecuteDisabled(ToUpper("STOP "))
  {
    TypedInputEnablesExecute("stop");
    assert SpellsUpToCase("stop", ConfirmationCode);
  }

  class EStopControl {
    var showEStopModal: bool
    var confirmationText: string

    /** The stored text is always the upper-cased form of what was typed. */
    ghost predicate Valid()
      reads this
    {
      NoLowercase(confirmationText)
    }

    constructor ()
      ensures Valid()
      ensures !showEStopModal && confirmationText == ""
    {
      showEStopModal := false;
      confirmationText := "";
    }

    /** The E-STOP button: opens the modal, keeping whatever text was typed before. */
    method OpenModal(fleet: Fleet)
      requires EStopOffered(fleet.globalState)
      modifies this
      ensures showEStopModal
      ensures confirmationText == old(confirmationText)
    {
      showEStopModal := true;
    }

    /** The input's `onChange`: store the typed value upper-cased. */
    method EditConfirmation(input: string)
      modifies this
      ensures Valid()
      ensures confirmationText == ToUpper(input)
      ensures showEStopModal == old(showEStopModal)
    {
      ToUpperNoLowercase(input);
      confirmationText := ToUpper(input);
    }

    /** Abort: close the modal; the typed text stays. */
    method Abort()
      modifies this
      ensures !showEStopModal
      ensures confirmationText == old(confirmationText)
    {
      showEStopModal := false;
    }

    /**
     * `handleEStop`: with the exact code typed, enter EMERGENCY_MODE (which
     * cascades if the state changes), close the modal and clear the text;
     * otherwise change nothing.
     */
    method HandleEStop(fleet: Fleet, now: Clock)
      requires Valid()
      modifies this, fleet
      ensures Valid()
      ensures old(confirmationText) == ConfirmationCode ==>
        && fleet.globalState == EmergencyMode
        && !showEStopModal && confirmationText == ""
        && (old(fleet.globalState) != EmergencyMode ==>
              fleet.agents == CascadeRoster(old(fleet.agents))
              && fleet.incidents == LogCascade(old(fleet.incidents), now))
        && (old(fleet.globalState) == EmergencyMode ==>
              fleet.agents == old(fleet.agents) && fleet.incidents == old(fleet.incidents))
      ensures old(confirmationText) != ConfirmationCode ==> unchanged(this) && unchanged(fleet)
    {
      if confirmationText == ConfirmationCode {
        fleet.SetGlobalState(EmergencyMode, now);
        showEStopModal := false;
        confirmationText := "";
      }
    }

    /** Reset System: back to NORMAL; agents stay as the cascade left them and nothing is logged. */
    method Reset(fleet: Fleet, now: Clock)
      requires ResetOffered(fleet.globalState)
      modifies fleet
      ensures fleet.globalState == Normal
      ensures fleet.agents == old(fleet.agents) && fleet.incidents == old(fleet.incidents)
    {
      fleet.SetGlobalState(Normal, now);
    }
  }
}

/**
 * A client of the two classes: three agents (running, paused, stopped), an
 * operator who types "stop" and presses Execute. Everything asserted here
 * follows from the method contracts alone.
 */
module DashboardScenario {
  import opened Types
  import opened Text
  import opened App
  import opened Dashboard

  /** Typing "stop" into the opened modal and pressing Execute enters EMERGENCY_MODE. */
  method TypedStopScenario(fleet: Fleet, now: Clock)
    requires fleet.globalState == Normal
    modifies fleet
  {
    var panel := new EStopControl();
    panel.OpenModal(fleet);
    panel.EditConfirmation("stop");
    LowercaseStopAccepted();
    panel.HandleEStop(fleet, now);
    assert fleet.globalState == EmergencyMode && !panel.showEStopModal;
    assert panel.confirmationText == "";
  }

  /** The emergency stop over three agents running, paused and stopped, then a reset. */
  method EmergencyStopScenario()
  {
    var a1 := Agent("a1", "Arm One", Physical, Running, "p", "t", 10, "pol");
    var a2 := Agent("a2", "Bot Two", Info, Paused, "p", "t", 60, "pol");
    var a3 := Agent("a3", "Hub Three", Hybrid, Stopped, "p", "t", 90, "pol");
    var fleet := new Fleet([a1, a2, a3], []);
    var now := Clock(1700000000000, "2023-11-14 22:13:20");
    fleet.SetGlobalState(EmergencyMode, now);
    assert fleet.agents[0].status == Stopped && fleet.agents[1].status == Stopped;
    assert fleet.agents[2] == a3;
    assert |fleet.incidents| == 1 && fleet.incidents[0].kind == EmergencyStop;
    assert fleet.incidents[0].agentId == "GLOBAL" && fleet.incidents[0].severity == Critical;
    fleet.SetGlobalState(Normal, now);
    assert fleet.agents[0].status == Stopped && |fleet.incidents| == 1;
  }
}
