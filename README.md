# Fleet safety console — Dafny model

A model of the state logic of a browser console for watching and halting a
fleet of autonomous agents. The console keeps three pieces of state: the
global safety posture (`NORMAL`, `PARTIAL_STOP`, `EMERGENCY_MODE`), the agent
roster, and an incident log with the newest entry first. Operators change
that state in two ways:

- **Emergency stop.** Entering `EMERGENCY_MODE` stops every running or
  paused agent and records one fleet-wide incident. The operator reaches it
  through a confirmation modal that demands the code `STOP`.
- **Manual status change.** A status change picked in the agent registry
  goes through a confirm/cancel modal. Stop-like changes are recorded as
  manual-stop incidents.

Files and modules:

- `types.dfy`: `Wrappers` (an `Option`) and `Types`. These are the enums and
  records of `types.ts`. Each enum is a datatype whose constructors are
  exactly its members, and functions give the strings those members stand
  for. The 0–100 risk score is the subset type `RiskScore`.
- `text.dfy`: `Text`. These are the JavaScript string operations the code
  uses: ASCII `toUpperCase`/`toLowerCase`, `includes` (whose contract says
  it holds iff the substring occurs at some position), and the decimal
  rendering of `Date.now()` used in incident ids (proved to round-trip, so
  ids are injective).
- `app.dfy`: `App`. This is the root component. Pure functions compute the
  new roster and log: `CascadeRoster`, `LogCascade`, `SetStatusById`,
  `FindAgent`, `IncidentAgentName` and `LogManualChange`. The class
  `App.Fleet` holds the three state cells, and its methods assign those
  functions' results.
- `dashboard.dfy`: `Dashboard`. It holds the status counts, the five-row
  preview, and the emergency-stop panel as class `EStopControl` (modal flag
  and confirmation text). Module `DashboardScenario` walks through a
  three-agent emergency stop using only the method contracts.
- `agent_list.dfy`: `AgentList`. It holds the search/type filter, the
  per-status row actions, the risk bands, and the selection state as class
  `RegistryView`.

Behaviour the model follows as the code has it. Where one might expect a
rejection or a stricter rule, the model follows the code:

- **Unknown id.** A status change for an id not in the roster is not
  rejected. The roster stays the same. For STOPPED, PAUSED or QUARANTINED
  an incident is still logged, with agent name `'Unknown'`
  (`App.UnknownIdStillLogged`).
- **Empty name.** The name on a manual incident is `agent?.name ||
  'Unknown'`. So an agent whose name is the empty string is also logged as
  `'Unknown'` (`App.IncidentAgentName`).
- **Lowercase input.** The confirmation field stores each edit upper-cased.
  Typing `stop` therefore enables Execute and triggers the stop. Only the
  stored text is compared exactly with `"STOP"`
  (`Dashboard.TypedInputEnablesExecute`, `Dashboard.LowercaseStopAccepted`).
- **Cascade trigger.** The cascade is an effect keyed on the global state.
  It runs only when that state changes to `EMERGENCY_MODE`. Setting
  `EMERGENCY_MODE` again while already in it stops nobody and logs nothing
  (`App.Fleet.SetGlobalState`).
- **No invariant in emergency mode.** Nothing stops an operator from
  resuming an agent while in `EMERGENCY_MODE`. So "no agent is running" is a
  property of the cascade step, not an invariant of that mode.
- **Reset.** Reset returns to `NORMAL` without touching agents or the log.
- **Stale lookup.** The status handler looks the agent's name up in the
  roster as it was before the change. Names never change, so the result is
  the same either way (`App.NameUnaffectedByUpdate`).

## Model

| member | source | states |
|---|---|---|
| `Types.StatusNamesDistinct` | types.ts:1-6 | Two statuses have the same string value iff they are the same status. |
| `Types.TypeNamesDistinct` | types.ts:8-12 | Two agent types have the same string iff they are equal, and no type's string is "ALL". |
| `Text.ToUpper` | components/Dashboard.tsx:282 | Upper-casing keeps the length and maps each character by its ASCII upper case. |
| `Text.ToUpperNoLowercase` | components/Dashboard.tsx:282 | An upper-cased text has no lowercase letter. |
| `Text.ToUpperEqualsIff` | components/Dashboard.tsx:282 | Upper-casing s gives t iff t has no lowercase letter and s spells t up to case. |
| `Text.ToLower` | components/AgentList.tsx:30 | Lower-casing keeps the length and maps each character by its ASCII lower case. |
| `Text.Includes` | components/AgentList.tsx:30 | `includes` holds iff the substring occurs at some position of the text. |
| `Text.IncludesEmpty` | components/AgentList.tsx:30 | Every text includes the empty search string. |
| `Text.DecimalRoundTrip` | App.tsx:28 | Reading back the decimal rendering of a number gives the number. |
| `App.IncidentId` | App.tsx:28 | An incident id is `inc-` followed by decimal digits that read back as the millisecond count. |
| `App.IncidentIdInjective` | App.tsx:28 | Two incident ids are equal iff they were made at the same millisecond. |
| `App.CascadeRoster` | App.tsx:18-24 | The cascade keeps length and order. It makes each RUNNING/PAUSED agent STOPPED, keeps STOPPED/QUARANTINED agents as they were, and changes no field but status. |
| `App.CascadeLeavesNoneActive` | App.tsx:19-22 | After the cascade no agent is RUNNING or PAUSED; each one is STOPPED or QUARANTINED. |
| `App.CascadeIdempotent` | App.tsx:19-23 | Applying the cascade twice gives the same roster as applying it once. |
| `App.LogCascade` | App.tsx:27-38 | A cascade prepends exactly one incident and the old log becomes the tail. The new incident has agent GLOBAL / ALL AGENTS, kind EMERGENCY_STOP, severity CRITICAL, reason "Global Emergency Stop triggered by Operator", actor Operator (Admin) and resolved false. |
| `App.SetStatusById` | App.tsx:43 | Every agent whose id matches gets the new status, whatever its old one. Every other agent is unchanged, no other field changes, and the length is kept. |
| `App.UnknownIdKeepsRoster` | App.tsx:43 | A status change for an id not in the roster leaves the roster equal to what it was. |
| `App.FindAgent` | App.tsx:47 | Finds nothing iff no agent has the id; otherwise returns the first agent with the id. |
| `App.IncidentAgentName` | App.tsx:52 | The recorded name is 'Unknown' when no agent has the id, and also when the first agent with the id has an empty name. Any other recorded name belongs to an agent with that id. |
| `App.KnownIdIncidentName` | App.tsx:47-52 | When the first agent with the id has a non-empty name, that name is recorded. |
| `App.NameUnaffectedByUpdate` | App.tsx:43-52 | Looking the name up before or after the status change gives the same result. |
| `App.LogManualChange` | App.tsx:46-59 | For STOPPED/PAUSED/QUARANTINED, exactly one incident is prepended: MANUAL_STOP, HIGH, resolved, actor Operator (John Doe), reason "Manual status change to " + status. For RUNNING (and only for RUNNING) the log is unchanged. |
| `App.UnknownIdStillLogged` | App.tsx:43-59 | For an unknown id with a stop-like status, the roster is unchanged, yet one incident naming 'Unknown' is prepended. |
| `App.IdsPreserved` | App.tsx:19-43 | Neither the cascade nor a status change alters an id; both keep ids unique. |
| `App.Fleet.constructor` | App.tsx:11-13 | The global state starts NORMAL; the roster and log are the seed data. |
| `App.Fleet.TriggerCascade` | App.tsx:16-40 | In EMERGENCY_MODE the roster becomes its cascade and the log gets the emergency incident; in any other state nothing changes. |
| `App.Fleet.SetGlobalState` | App.tsx:16-40 | The state becomes the argument. Only a change into EMERGENCY_MODE cascades. Setting NORMAL or PARTIAL_STOP, or EMERGENCY_MODE again, leaves roster and log unchanged. |
| `App.Fleet.UpdateStatus` | App.tsx:42-61 | The roster becomes the by-id update and the log the manual-change log. The log is computed from the roster as it was before the update. The global state is unchanged. |
| `Dashboard.CountsPartition` | components/Dashboard.tsx:31-35 | The RUNNING, PAUSED, STOPPED and QUARANTINED counts sum to the roster size. |
| `Dashboard.CountStatus` | components/Dashboard.tsx:31-34 | A per-status count never exceeds the roster size. |
| `Dashboard.CountStatusExtremes` | components/Dashboard.tsx:31-34 | A count is 0 iff no agent has that status, and equals the roster size iff every agent has it. |
| `Dashboard.ComputeCounts` | components/Dashboard.tsx:31-35 | Each field is the count of its own status, the total is the roster length, and the four counts add up to it. |
| `Dashboard.CascadeCounts` | components/Dashboard.tsx:31-34 | After a cascade the running and paused counts are 0. The stopped count absorbs them, and the quarantined count is unchanged. |
| `Dashboard.RecentIncidents` | components/Dashboard.tsx:233 | The preview is the first min(5, log length) incidents, in log order. |
| `Dashboard.PreviewAfterCascade` | components/Dashboard.tsx:233 | After a cascade the preview is the emergency incident followed by the four newest earlier ones. |
| `Dashboard.TypedInputEnablesExecute` | components/Dashboard.tsx:282-298 | After an edit, Execute is enabled iff the typed input spells STOP in any case. |
| `Dashboard.LowercaseStopAccepted` | components/Dashboard.tsx:282-298 | Typing "stop" enables Execute; "" and "STOP " leave it disabled. |
| `Dashboard.EStopControl.constructor` | components/Dashboard.tsx:27-28 | The modal starts closed and the text empty. |
| `Dashboard.EStopControl.OpenModal` | components/Dashboard.tsx:145-147 | The E-STOP button is offered only outside EMERGENCY_MODE; it opens the modal and keeps the text. |
| `Dashboard.EStopControl.EditConfirmation` | components/Dashboard.tsx:282 | The stored text is the upper-cased input, so it never holds a lowercase letter. |
| `Dashboard.EStopControl.Abort` | components/Dashboard.tsx:291 | Abort closes the modal and keeps the text. |
| `Dashboard.EStopControl.HandleEStop` | components/Dashboard.tsx:54-60 | Nothing changes unless the text is exactly STOP. When it is: EMERGENCY_MODE with its cascade, modal closed, text cleared. |
| `Dashboard.EStopControl.Reset` | components/Dashboard.tsx:159-160 | Reset (offered only in EMERGENCY_MODE) sets NORMAL and changes neither roster nor log. |
| `AgentList.FilterAgents` | components/AgentList.tsx:29-33 | An agent is listed iff it is in the roster and is shown, and each shown record appears as many times as in the roster (hidden ones never). The list is an order-preserving subsequence of the roster. |
| `AgentList.Shown` | components/AgentList.tsx:29-33 | The row filter: the search matches and the type matches. |
| `AgentList.MatchesSearch` | components/AgentList.tsx:30 | The lower-cased name includes the lower-cased search text, or the id includes the text as typed. |
| `AgentList.MatchesType` | components/AgentList.tsx:31 | The type filter is ALL or the string of the agent's type. |
| `AgentList.MatchesSearchIff` | components/AgentList.tsx:30 | The search matches iff the lower-cased text occurs in the lower-cased name, or the text occurs in the id. |
| `AgentList.EmptySearchShowsAll` | components/AgentList.tsx:29-32 | An empty search under ALL lists the whole roster. |
| `AgentList.HybridOnlyUnderAll` | components/AgentList.tsx:86 | Among the filter buttons' values ALL, PHYSICAL, INFO, a HYBRID agent is shown only under ALL. |
| `AgentList.TypeFilterSelectsType` | components/AgentList.tsx:31 | Under a type's filter value only agents of that type are shown. |
| `AgentList.OfferedActions` | components/AgentList.tsx:150-176 | No row offers its own status or QUARANTINED. |
| `AgentList.OfferedActionsIff` | components/AgentList.tsx:150-176 | RUNNING offers exactly PAUSED and STOPPED, PAUSED and STOPPED offer exactly RUNNING, and QUARANTINED offers none. |
| `AgentList.OfferedActionKeepsQuarantine` | components/AgentList.tsx:150-176 | With unique ids, an offered action never moves an agent into or out of QUARANTINED. |
| `AgentList.CascadeKeepsQuarantine` | App.tsx:19-22 | The cascade never moves an agent into or out of QUARANTINED. |
| `AgentList.RiskBandOf` | components/AgentList.tsx:135-139 | The risk band is high iff score > 80, medium iff 50 < score <= 80, low iff score <= 50. The score figure uses the same > 80 test for its highlight. |
| `AgentList.RiskBandMonotone` | components/AgentList.tsx:135 | A higher score never falls in a lower band. |
| `AgentList.RegistryView.constructor` | components/AgentList.tsx:24-27 | Empty search, ALL filter, nothing selected. |
| `AgentList.RegistryView.SetFilterText` | components/AgentList.tsx:80 | The search text becomes the input; nothing else changes. |
| `AgentList.RegistryView.SetTypeFilter` | components/AgentList.tsx:86-89 | The type filter becomes one of ALL, PHYSICAL, INFO; nothing else changes. |
| `AgentList.RegistryView.ChooseAction` | components/AgentList.tsx:150-176 | A shown row's offered action selects that agent and action together. |
| `AgentList.RegistryView.ConfirmAction` | components/AgentList.tsx:57-63 | When both fields are set, the status change is issued exactly once for the agent's id and action, and both fields are cleared. When either is unset, nothing happens. |
| `AgentList.RegistryView.Cancel` | components/AgentList.tsx:227 | Both fields are cleared and no status change is issued. |

## Left out

- components/Layout.tsx and components/IncidentLog.tsx: navigation chrome and rendering only.
- All JSX markup, CSS classes, icons and charts. This includes the fixed `activityData` series, the StatCard literals, the status badge colours and the colour of the confirm modal per action.
- Styling configuration (tailwind.config.js).
- View switching (`currentView` in App.tsx) and the placeholder views.
- The "more" button on each row: it has no handler.
- The clock. `Date.now()` and `new Date().toISOString()…` become a `Clock` parameter (milliseconds and an already formatted timestamp string). The timestamp's formatting is not modelled. Two incidents made in the same millisecond share an id, as in the code.
- React scheduling. The cascade effect runs after a render and `setState` calls are batched. Both are modelled as one synchronous step per command.
- Seed data. The mock roster and log come from a constants module that is not part of this model; they are arbitrary constructor arguments.
- Unicode case mapping: `toUpperCase`/`toLowerCase` are modelled over ASCII letters only.
- Risk score type. The code types the score as a JavaScript number and does not check its range. The model uses an integer in 0–100, the documented range.
- Id uniqueness. The code never enforces unique agent ids, and the model does not assume them. Only `AgentList.OfferedActionKeepsQuarantine` requires them, because with duplicate ids a by-id update changes every agent sharing the id.
- Unrendered buttons. `OpenModal`, `Reset`, `SetTypeFilter` and `ChooseAction` require the condition under which the markup renders their button, since a button that is not rendered cannot be pressed.
