# HomeShift in Dafny

A Dafny model of the decision core of HomeShift, a Home Assistant integration
that picks a household's *day mode* (Maison, Travail, Télétravail, Absence, …)
from a calendar, a weekend rule and a holiday calendar. It also switches
"scheduler" entities on and off to match the day mode and the thermostat mode.

The model covers three parts of the repository.

- **The HomeShift coordinator** (`custom_components/homeshift/coordinator.py`).
  - The class `HomeShift.Coordinator` keeps the coordinator's fields and
    updates them in place.
  - Each method is proved against a pure function of the old state. The
    periodic update is proved against `Tick`, and the manual setters
    against `SetDayModeSpec`, `SetThermostatModeSpec` and
    `SetOverrideDurationSpec`.
  - The switch service calls the coordinator issues are recorded as a
    trace (`calls`).
  - The supporting modules:
    - `EventPeriods` classifies an event as morning, afternoon or whole day.
    - `ModeMaps` parses the "Key:Value, …" maps.
    - `Schedulers` decides which switches to turn on and off.
    - `OrderedMaps` models Python's insertion-ordered `dict`.
    - `Strings` models the `str` operations the code uses.
  - `HomeShiftProperties` holds the properties proved of the model:
    - resolver priority;
    - the absence and override gates;
    - day-level event type persistence;
    - thermostat key/display round trips;
    - the invariant every operation keeps.
- **The configuration flow's helpers** (`custom_components/homeshift/config_flow.py`).
  - The form reads and rewrites the thermostat map.
  - It reads the day modes.
  - It extracts the schedulers chosen for each day mode.
  - It validates the calendar ids.
  - It builds the menu.
- **The legacy Day Mode coordinator** (`custom_components/day_mode/coordinator.py`).
  - It is a separate module, `DayMode`, with a fixed priority rule in which
    the weekend ranks above telework.

The host platform is modelled as parameters:

- `hass.states` is a map from entity id to state.
- `dt_util.now()` is a `Now` value: an instant in seconds, a day number and a
  weekday.
- The config entry's data is a record of optional fields.
- The localized event names are an `EventNames` value.

Where the code and its documentation differ, the model follows the code:

- The event type used for the map lookup is the raw event message whenever
  it is neither the vacation name nor the telework name. So a plain
  "Formation" event is looked up in the event-mode map (coordinator.py:408-413).
- The override duration read from the entry is `int(raw or 0)` and is not
  clamped, so it can be negative until the setter first clamps it
  (coordinator.py:85-89, 222-224).
- When no calendar is configured, or it has no state, the tick returns at
  once. The previous tick's current event and event period are then kept
  (coordinator.py:368-376).
- An event from 08:00 to 12:30 is classified as all day, because the morning
  test needs the end to fall on a whole hour (coordinator.py:336-342).

## Model

| member | source | states |
|---|---|---|
| EventPeriods.DetectEventPeriod | custom_components/homeshift/coordinator.py:316-342 | An unparsable timestamp or a midnight-to-midnight event is AllDay. Morning needs both ends parsed and not both at midnight, and an end no later than 13:00. Afternoon needs the same, with a start at or after 13:00. |
| EventPeriods.TimedAllDaySpansMidday | custom_components/homeshift/coordinator.py:331-342 | A valid timed event is AllDay exactly when it starts before 13:00 and does not end on a whole hour at or before 13:00. |
| EventPeriods.MorningWhenEndingByMidday | custom_components/homeshift/coordinator.py:336-337 | An event ending on a whole hour up to 13:00 is Morning, unless both ends are at midnight. |
| EventPeriods.BoundaryCases | custom_components/homeshift/coordinator.py:325-342 | The boundary cases: 08–12 and 08–13 are morning, 13–18 and 14–18 are afternoon, and 00:00–00:00, 08–18 and an unparsable time are all day. |
| EventPeriods.MorningEndingOffTheHourIsAllDay | custom_components/homeshift/coordinator.py:336-342 | 08:00–12:30 is AllDay, because it ends off the hour. |
| OrderedMaps.Get | custom_components/homeshift/coordinator.py:493 | `dict.get`: None exactly when the key is absent; otherwise the value is an entry of the map. |
| OrderedMaps.AssignKeys | custom_components/homeshift/coordinator.py:145 | Assigning a key keeps the key order and appends a new key at the end. |
| OrderedMaps.AssignGet | custom_components/homeshift/coordinator.py:145 | After `d[k] = v`, `d.get(k)` is v and every other key reads as before. |
| OrderedMaps.FromPairsSpec | custom_components/homeshift/coordinator.py:137-146 | A dict filled pair by pair has distinct keys, and each key holds the last value assigned to it. |
| ModeMaps.ParseModeMap | custom_components/homeshift/coordinator.py:134-146 | The parsing loop computes the parsed map function `ModeMapOf`. |
| ModeMaps.ParseEventModeMap | custom_components/homeshift/coordinator.py:129-146 | `parse_event_mode_map` returns the event map with lower-cased keys. |
| ModeMaps.ParseThermostatModeMap | custom_components/homeshift/coordinator.py:149-167 | `parse_thermostat_mode_map` returns the thermostat map with keys in their own case. |
| ModeMaps.ModeMapSpec | custom_components/homeshift/coordinator.py:129-167 | The parsed map has distinct keys, and the empty text gives the empty map. Each key holds the last value given for it. Entries have non-empty stripped sides, and the event map's keys are lower case. |
| ModeMaps.ModeMapRoundTrip | custom_components/homeshift/coordinator.py:129-167 | A clean map written as "k:v, k:v" parses back to itself. |
| ModeMaps.ParsePairRendered | custom_components/homeshift/coordinator.py:137-143 | "k:v" with any leading white space splits back into (k, v). |
| HomeShift.ScanIntervalOf | custom_components/homeshift/coordinator.py:57-61 | A missing or unparsable scan interval falls back to 60. Otherwise it is `int()` of the setting. |
| HomeShift.OverrideDurationOf | custom_components/homeshift/coordinator.py:85-89 | A falsy setting gives 0 and an unparsable one the default. Otherwise it is `int()` of the setting, unclamped. |
| HomeShift.DayModeListOfJoin | custom_components/homeshift/coordinator.py:94-95 | Splitting ", "-joined clean modes on commas and stripping them gives the modes back. |
| HomeShift.DefaultDayModesRoundTrip | custom_components/homeshift/coordinator.py:94-95 | The default text `", ".join(DEFAULT_DAY_MODES)` parses back to the default list. |
| HomeShift.DayModeListClean | custom_components/homeshift/coordinator.py:95 | Every configured day mode is stripped and has no comma. |
| HomeShift.InitialThermostatMode | custom_components/homeshift/coordinator.py:98-101 | The start-up thermostat mode is the first display value, or "Off" when the map is empty. |
| HomeShift.InitialStateValid | custom_components/homeshift/coordinator.py:77-101 | The state after `__init__` satisfies the coordinator invariant. |
| HomeShift.Coordinator.constructor | custom_components/homeshift/coordinator.py:54-108 | The settings are read with their defaults and the fields start at their initial values. No call has been issued and the invariant holds. |
| HomeShift.KeyOfDisplay | custom_components/homeshift/coordinator.py:260-270 | None exactly when the mode is not a display value. Otherwise it is the key of the first entry that shows the mode. |
| HomeShift.FindThermostatKey | custom_components/homeshift/coordinator.py:267-270 | The loop over the map returns `KeyOfDisplay`. |
| HomeShift.Coordinator.ThermostatModeKey | custom_components/homeshift/coordinator.py:260-270 | `thermostat_mode_key` is the key of the current thermostat display value. Under the invariant it is never None while the thermostat map is non-empty. |
| HomeShift.DisplayOfKey | custom_components/homeshift/coordinator.py:283-287 | None exactly when no key matches ignoring case. Otherwise it is the display of the first key that matches. |
| HomeShift.ResolveThermostatDisplay | custom_components/homeshift/coordinator.py:272-287 | A display value resolves to itself, and any result is a display value. None exactly when the value is neither a display value nor a key ignoring case. |
| HomeShift.FindThermostatDisplay | custom_components/homeshift/coordinator.py:281-287 | The loop returns `ResolveThermostatDisplay`. |
| HomeShift.MappedMode | custom_components/homeshift/coordinator.py:491-495 | The event type maps exactly when it is non-empty, is not the no-event name, and its lower-cased form maps to a non-empty mode. The result is a non-empty value of the event map. |
| HomeShift.DetermineMode | custom_components/homeshift/coordinator.py:471-506 | The resolved mode is a mapped event mode, the weekend mode, the holiday mode or the default mode. |
| HomeShift.TickType | custom_components/homeshift/coordinator.py:399-413 | With no active event with a message, the type is the no-event name. Otherwise it is the vacation name when that name occurs in the message ignoring case. Failing that, it is the telework name when that name occurs, and else the raw message. |
| HomeShift.BuildResult | custom_components/homeshift/coordinator.py:459-469 | The result dict carries the state's fields: type, event, period, day mode, thermostat mode and deadline. The thermostat key is None exactly when the mode is no display value; otherwise (key, mode) is an entry of the map. |
| HomeShift.Coordinator.BuildSnapshot | custom_components/homeshift/coordinator.py:459-469 | `_build_result` returns `BuildResult` of the current state. |
| HomeShift.Arm | custom_components/homeshift/coordinator.py:242-253 | A deadline is set exactly when the duration is positive, and it lies after now. |
| HomeShift.SetOverrideDurationSpec | custom_components/homeshift/coordinator.py:222-224 | The duration becomes `max(0, minutes)` and nothing else changes. |
| HomeShift.Coordinator.SetOverrideDurationMinutes | custom_components/homeshift/coordinator.py:222-228 | The state becomes `SetOverrideDurationSpec` of the old state, and no call is issued. The invariant is kept. |
| HomeShift.Coordinator.RefreshSchedulers | custom_components/homeshift/coordinator.py:521-598 | The calls issued are the turn-off and turn-on calls of the scheduler diff, in that order. None are issued without a scheduler configuration. The invariant is kept. |
| HomeShift.Coordinator.Update | custom_components/homeshift/coordinator.py:351-457 | The new state is `Tick` of the old state. Refresh calls are appended exactly when the day mode changed, and the result is `_build_result` of the new state. The invariant is kept. |
| HomeShift.Coordinator.ObserveCalendar | custom_components/homeshift/coordinator.py:387-417 | The date rollover is applied, then the calendar's event is recorded. The tick's event type is returned and no call is issued. The invariant is kept. |
| HomeShift.Coordinator.ApplyMode | custom_components/homeshift/coordinator.py:419-455 | The state becomes `Decide` of the old state: the absence and override gates, clearing of an expired override, then the resolver. Calls are issued exactly when the mode changed. The invariant is kept. |
| HomeShift.Coordinator.SetDayMode | custom_components/homeshift/coordinator.py:230-258 | The state becomes `SetDayModeSpec` of the old state. Refresh calls are issued exactly when the mode was accepted. The invariant is kept. |
| HomeShift.Coordinator.SetThermostatMode | custom_components/homeshift/coordinator.py:289-313 | The state becomes `SetThermostatModeSpec` of the old state. Refresh calls are issued exactly when the value resolved. The invariant is kept. |
| HomeShift.Coordinator.CheckNextDay | custom_components/homeshift/coordinator.py:508-519 | In the absence mode, nothing changes and nothing is returned. Otherwise it does what `Update` does and returns its result. The invariant is kept. |
| Schedulers.SchedulerDiff | custom_components/homeshift/coordinator.py:545-575 | The switches to enable and to disable are disjoint, and together they are every assigned switch. Enabled switches belong to the active mode. An active-mode switch is left out only when the thermostat is Off and the switch carries a thermostat tag. |
| Schedulers.ComputeSchedulerDiff | custom_components/homeshift/coordinator.py:545-575 | The loops compute `SchedulerDiff`. |
| Schedulers.CollectOthers | custom_components/homeshift/coordinator.py:547-552 | `to_disable` is the other modes' switches minus the active ones. |
| Schedulers.AddSwitches | custom_components/homeshift/coordinator.py:550-552 | The inner loop adds exactly the listed switches that are not enabled. |
| Schedulers.CollectSwitches | custom_components/homeshift/coordinator.py:560-562 | `all_switches` is every switch of every mode. |
| Schedulers.ForceOff | custom_components/homeshift/coordinator.py:563-575 | Every thermostat-tagged switch moves from enable to disable. |
| Schedulers.NoConfigNoCalls | custom_components/homeshift/coordinator.py:531-537 | No scheduler configuration means no service call. |
| Schedulers.CallsShape | custom_components/homeshift/coordinator.py:577-594 | There are at most two calls, turn-off before turn-on, each with a non-empty, strictly sorted id list. |
| Schedulers.CallsSwitches | custom_components/homeshift/coordinator.py:577-594 | The turn-off call names exactly the switches to disable, and the turn-on call exactly those to enable. Each call happens exactly when its set is non-empty. |
| Schedulers.SharedSwitchStaysOn | custom_components/homeshift/coordinator.py:546-552 | A switch of the active mode, also listed under another mode, is enabled and not disabled, unless the thermostat-off rule forces it off. |
| Schedulers.ThermostatOffForcesOff | custom_components/homeshift/coordinator.py:554-575 | With the thermostat Off, every assigned switch with a thermostat tag is disabled and not enabled. |
| Schedulers.OtherModeSwitchOff | custom_components/homeshift/coordinator.py:548-552 | A switch only listed under other modes is disabled. |
| Schedulers.TwoModeExample | custom_components/homeshift/coordinator.py:545-552 | With A: x and B: y, z, activating B enables {y, z} and disables {x}. |
| Host.Lookup | custom_components/homeshift/coordinator.py:373 | `hass.states.get` returns a state exactly when the entity is known, and then it is that entity's state. |
| Strings.StripIsStripped | custom_components/homeshift/coordinator.py:138 | `str.strip()` leaves no white space at either end. |
| Strings.JoinSplit | custom_components/homeshift/coordinator.py:137 | Joining `s.split(",")` with "," gives s back, so splitting loses nothing. |
| Strings.SplitFirstOf | custom_components/homeshift/coordinator.py:141 | `split(":", 1)` of "a:b", with no colon in a, gives (a, b). |
| Strings.LowerIdempotent | custom_components/homeshift/coordinator.py:145 | Lower-casing twice is lower-casing once. |
| Strings.ParseIntOfString | custom_components/homeshift/coordinator.py:59 | `int(str(n)) == n` for every integer n. |
| Strings.SortedSeqSpec | custom_components/homeshift/coordinator.py:583 | `sorted(set)` is strictly increasing and holds exactly the set's members. |
| Strings.Sorted | custom_components/homeshift/coordinator.py:583 | The selection loop computes `sorted(set)`. |
| HomeShiftProperties.MappedEventWins | custom_components/homeshift/coordinator.py:491-495 | A mapped event type wins over the weekend, the holiday and the default. |
| HomeShiftProperties.WeekendBeforeHolidayBeforeDefault | custom_components/homeshift/coordinator.py:497-506 | Without a mapped event: weekend mode, else holiday mode, else default mode. |
| HomeShiftProperties.NoEventIsNeverMapped | custom_components/homeshift/coordinator.py:492 | The no-event name and the empty type are never looked up. |
| HomeShiftProperties.UnknownTypeActsAsNoEvent | custom_components/homeshift/coordinator.py:491-506 | An event type missing from the map resolves like no event. |
| HomeShiftProperties.EventTypeCaseInsensitive | custom_components/homeshift/coordinator.py:493 | Event types equal ignoring case resolve to the same mode. |
| HomeShiftProperties.VacationExample | custom_components/homeshift/coordinator.py:471-506 | With "vacances:Maison", a weekday Vacances event gives Maison, and a weekday with no event gives Travail, or Maison on a holiday. |
| HomeShiftProperties.TickWithoutCalendar | custom_components/homeshift/coordinator.py:368-376 | Without a configured calendar, or without its state, a tick changes nothing and calls nothing. |
| HomeShiftProperties.AbsenceHolds | custom_components/homeshift/coordinator.py:420-424 | In the absence mode, a tick keeps the mode and the override and calls nothing. |
| HomeShiftProperties.AbsenceIsSticky | custom_components/homeshift/coordinator.py:420-424 | Over any sequence of ticks, the absence mode stays and no call is issued. |
| HomeShiftProperties.OverrideBlocksTick | custom_components/homeshift/coordinator.py:425-430 | While the override is active, a tick keeps the mode and the deadline and calls nothing. |
| HomeShiftProperties.OverrideExpires | custom_components/homeshift/coordinator.py:431-437 | A tick past the deadline, outside absence, clears the override. |
| HomeShiftProperties.TickChangesModeOnlyToConfigured | custom_components/homeshift/coordinator.py:438-448 | A tick refreshes exactly when the mode changes. The new mode is the resolver's answer, non-empty and configured. |
| HomeShiftProperties.TickFollowsResolver | custom_components/homeshift/coordinator.py:438-455 | Outside absence and override, the mode becomes the resolver's answer when it is non-empty and configured, and stays otherwise. |
| HomeShiftProperties.NewDateResetsTodayType | custom_components/homeshift/coordinator.py:392-397 | On a new date, the day's type restarts from the tick's own type. |
| HomeShiftProperties.TodayTypePersists | custom_components/homeshift/coordinator.py:414-417 | On the same date, the day's type changes only to a type other than no event. |
| HomeShiftProperties.CurrentEventFollowsCalendar | custom_components/homeshift/coordinator.py:387-406 | The current event is the active event's message, or None. The period is set exactly when there is one. |
| HomeShiftProperties.HalfDayRevertsToDefault | custom_components/homeshift/coordinator.py:387-455 | After a morning telework event ends, the day's type stays telework but the mode returns to the default. |
| HomeShiftProperties.SetDayModeAcceptsOnlyConfigured | custom_components/homeshift/coordinator.py:230-253 | An unknown mode changes nothing. A configured one becomes current, leaves the thermostat alone, and arms the override exactly when the duration is positive. |
| HomeShiftProperties.OverrideWindow | custom_components/homeshift/coordinator.py:425-437 | With a 60-minute override, a tick after 30 minutes keeps the manual mode, and a tick after 61 minutes clears the override. |
| HomeShiftProperties.LaterChangeLaterDeadline | custom_components/homeshift/coordinator.py:241-244 | A later manual change re-arms the override to a later deadline. |
| HomeShiftProperties.ThermostatSetterLeavesDayAlone | custom_components/homeshift/coordinator.py:289-313 | The thermostat setter changes only the thermostat mode, always to a display value, and changes nothing when the value does not resolve. |
| HomeShiftProperties.DisplayKeyRoundTrip | custom_components/homeshift/coordinator.py:260-287 | In an unambiguous map, a display value resolves to itself, and its key resolves back to it. |
| HomeShiftProperties.KeyDisplayRoundTrip | custom_components/homeshift/coordinator.py:260-287 | A key given in any case resolves to its display value, whose key is that key again. |
| HomeShiftProperties.KeyResolves | custom_components/homeshift/coordinator.py:283-287 | Every key of an unambiguous map resolves to its own display value. |
| HomeShiftProperties.ThermostatKeyExample | custom_components/homeshift/coordinator.py:272-287 | "heating" resolves to "Chauffage" in the default-style map. |
| HomeShiftProperties.ThermostatUnknownExample | custom_components/homeshift/coordinator.py:295-303 | "boost" does not resolve. |
| HomeShiftProperties.ModeChangeTurnsOnNewMode | custom_components/homeshift/coordinator.py:439-448 | When a tick changes the mode, a turn-on call names each switch of the new mode, unless the thermostat is Off. |
| HomeShift.ObserveKeepsInvariant | custom_components/homeshift/coordinator.py:387-417 | The rollover and the calendar observation keep the invariant. |
| HomeShift.DecideKeepsInvariant | custom_components/homeshift/coordinator.py:419-455 | The gates and the resolver keep the invariant: a changed day mode is always a configured one. |
| HomeShift.TickKeepsInvariant | custom_components/homeshift/coordinator.py:351-457 | A tick keeps the invariant: a configured (or start-up) day mode, a display-value thermostat mode, and no type without a date. |
| HomeShift.SetDayModeKeepsInvariant | custom_components/homeshift/coordinator.py:230-240 | The day-mode setter keeps the invariant. |
| HomeShift.SetThermostatModeKeepsInvariant | custom_components/homeshift/coordinator.py:289-305 | The thermostat setter keeps the invariant. |
| HomeShift.SetOverrideDurationKeepsInvariant | custom_components/homeshift/coordinator.py:222-224 | The duration setter keeps the invariant. |
| HomeShiftProperties.OverrideDurationFalsy | custom_components/homeshift/coordinator.py:85-87 | A missing, None, empty or zero setting gives 0. |
| HomeShiftProperties.OverrideDurationUnparsable | custom_components/homeshift/coordinator.py:86-89 | A non-numeric text gives the default 0. |
| HomeShiftProperties.OverrideDurationNumber | custom_components/homeshift/coordinator.py:85-89 | A number n is read as n, negative included. The setter clamps it to `max(0, n)`. |
| HomeShiftProperties.ScanIntervalSettings | custom_components/homeshift/coordinator.py:57-61 | A missing, None or non-numeric interval gives 60, and a number gives itself. |
| ConfigFlow.ParseThermostatMap | custom_components/homeshift/config_flow.py:83-91 | The loop computes the form's map `FlowThermostatMapOf`, in which empty keys and displays are kept. |
| ConfigFlow.FlowMapClean | custom_components/homeshift/config_flow.py:83-91 | The form's map has distinct keys, and every entry is stripped and comma-free, with no colon in its key. |
| ConfigFlow.FlowMapOfEmpty | custom_components/homeshift/config_flow.py:83-91 | The empty text gives the empty map. |
| ConfigFlow.FlowMapRoundTrip | custom_components/homeshift/config_flow.py:83-91 | A clean map written as "k:v, k:v" parses back to itself. |
| ConfigFlow.Rebuild | custom_components/homeshift/config_flow.py:112-116 | The rebuilt map has the same keys in the same order. |
| ConfigFlow.FormInput.Pop | custom_components/homeshift/config_flow.py:115 | `pop` returns the field's value, or the default, and removes the field. |
| ConfigFlow.RebuildThermostatMap | custom_components/homeshift/config_flow.py:109-117 | The text is the rebuilt map written out, and the form keeps exactly the fields the rebuild did not consume. |
| ConfigFlow.RebuildFrom | custom_components/homeshift/config_flow.py:112-117 | The text is the rebuilt map joined with ", ", and the form keeps exactly the fields the rebuild did not consume. |
| ConfigFlow.RebuildItems | custom_components/homeshift/config_flow.py:112-116 | The loop builds the "key:display" item of every pair `Rebuild` produces, in order, and pops exactly the fields `Rebuild` consumes. |
| ConfigFlow.RebuildPops | custom_components/homeshift/config_flow.py:115 | The fields left over are the input minus the map's display fields, and every other field is unchanged. |
| ConfigFlow.RebuildDisplays | custom_components/homeshift/config_flow.py:112-116 | Each key takes its submitted display field, or keeps its current display. |
| ConfigFlow.RebuildDisplaySources | custom_components/homeshift/config_flow.py:112-116 | Every written display is the current one or a submitted value. |
| ConfigFlow.RebuildUntouched | custom_components/homeshift/config_flow.py:109-117 | With no display field submitted, the map is written as it is and nothing is popped. |
| ConfigFlow.RebuildRoundTrip | custom_components/homeshift/config_flow.py:109-117 | With no display field submitted, the rebuilt text parses back to the current map. |
| ConfigFlow.RebuildEditRoundTrip | custom_components/homeshift/config_flow.py:109-117 | Submitted displays that are stripped and comma-free are read back by the next parse. |
| ConfigFlow.KeptModes | custom_components/homeshift/config_flow.py:183 | The kept modes are non-empty, and a string is kept exactly when it is a non-empty stripped piece. |
| ConfigFlow.KeptModesOne | custom_components/homeshift/config_flow.py:183 | One piece is kept, stripped, exactly when it is not blank. |
| ConfigFlow.KeptModesAppend | custom_components/homeshift/config_flow.py:183 | Keeping distributes over concatenation, so the kept modes are the non-blank stripped pieces in input order. |
| ConfigFlow.FlowModesAreCoordinatorModes | custom_components/homeshift/config_flow.py:180-183 | The form lists exactly the coordinator's day modes less the empty ones. |
| ConfigFlow.FlowDayModesRoundTrip | custom_components/homeshift/config_flow.py:180-183 | Non-empty clean modes joined with ", " parse back to themselves. |
| ConfigFlow.FlowDefaultDayModes | custom_components/homeshift/config_flow.py:182 | The default text parses to the default list. |
| ConfigFlow.SchedulerList | custom_components/homeshift/config_flow.py:232-235 | A missing field gives [], a text gives [text] or [] when empty, and a list gives itself. |
| ConfigFlow.ExtractSchedulers | custom_components/homeshift/config_flow.py:228-237 | The keys are exactly the parsed day modes, and each value is the field's switch list. |
| ConfigFlow.SchedulersFor | custom_components/homeshift/config_flow.py:231-237 | The loop assigns every mode its field's list and no other key. |
| ConfigFlow.ValidateCalendars | custom_components/homeshift/config_flow.py:168-177 | Each calendar key is marked exactly when its id is given, non-empty and unknown to the host. Only those two keys appear, always with "invalid_calendar". |
| ConfigFlow.MenuOptions | custom_components/homeshift/config_flow.py:284-287 | The menu starts with calendars, mapping and schedulers. "finalize" is offered, last, exactly when a calendar entity is set. |
| DayMode.ModeListOfJoin | custom_components/day_mode/coordinator.py:44-48 | Clean modes joined with ", " split and strip back to themselves. |
| DayMode.DefaultDayModesRoundTrip | custom_components/day_mode/coordinator.py:44-45 | The default day-mode text parses to the default list. |
| DayMode.DefaultThermostatModesRoundTrip | custom_components/day_mode/coordinator.py:47-48 | The default thermostat-mode text parses to the default list. |
| DayMode.ModeListKeepsEmpty | custom_components/day_mode/coordinator.py:45 | No item is filtered out: even a blank text before a comma is a mode. |
| DayMode.EventDate | custom_components/day_mode/coordinator.py:129-132 | A date exists exactly when start_time is a non-empty text. It is the text of start_time up to its first space, or all of it when it has no space. |
| DayMode.NextDayType | custom_components/day_mode/coordinator.py:103-150 | The result is "Aucun", "Vacances" or "Télétravail". It is not "Aucun" exactly when a configured calendar has a state, its event starts today, and its message is exactly one of the two; the result is then that message. |
| DayMode.IsHoliday | custom_components/day_mode/coordinator.py:166-172 | A holiday exactly when a holiday calendar is configured, has a state, and that state is "on". |
| DayMode.NextDayMode | custom_components/day_mode/coordinator.py:174-185 | The result is Maison, Télétravail or Travail. It is Télétravail exactly on a non-weekend telework day, and Travail exactly when no rule above applies. |
| DayMode.DayModeCoordinator.constructor | custom_components/day_mode/coordinator.py:31-48 | The modes start at Maison and Eteint, and the lists are read from the entry or the defaults. |
| DayMode.DayModeCoordinator.RefreshSchedulers | custom_components/day_mode/coordinator.py:191-214 | The placeholder refresh is counted and does nothing else. |
| DayMode.DayModeCoordinator.SetModeJour | custom_components/day_mode/coordinator.py:89-94 | A configured mode becomes current and refreshes the schedulers. Any other mode changes nothing. |
| DayMode.DayModeCoordinator.SetModeThermostat | custom_components/day_mode/coordinator.py:96-101 | The same rule over the thermostat modes. |
| DayMode.DayModeCoordinator.UpdateData | custom_components/day_mode/coordinator.py:103-150 | The data holds `NextDayType` and the two current modes. |
| DayMode.DayModeCoordinator.CheckNextDay | custom_components/day_mode/coordinator.py:152-189 | In Absence, nothing changes. Otherwise the data is refreshed, and the priority rule's mode becomes current when it is configured. The scheduler refresh runs exactly then. |
| DayMode.VacancesIsHome | custom_components/day_mode/coordinator.py:176-177 | Vacances gives Maison on every day. |
| DayMode.WeekendBeatsTelework | custom_components/day_mode/coordinator.py:174-181 | On a weekend every type gives Maison, telework included. |
| DayMode.TeleworkBeatsHoliday | custom_components/day_mode/coordinator.py:180-183 | A weekday telework day is Télétravail even on a holiday. |
| DayMode.NoCalendarIsWorkOrHoliday | custom_components/day_mode/coordinator.py:105-112 | Without a calendar the type is "Aucun", and a weekday is Travail, or Maison on a holiday. |
| DayMode.OtherDayIsNoEvent | custom_components/day_mode/coordinator.py:132-135 | An event starting on another day is not seen. |
| DayMode.OtherMessageIsNoEvent | custom_components/day_mode/coordinator.py:136-139 | Only the exact messages "Vacances" and "Télétravail" are seen. |
| DayMode.VacancesToday | custom_components/day_mode/coordinator.py:129-137 | A Vacances event whose start_time is "today HH:MM:SS" gives Vacances. |

## Left out

- Host plumbing is left out: the `DataUpdateCoordinator` base, its update timer (`update_interval`), `async_refresh`, `async_set_updated_data` and logging. A tick is the `Update` call, and service calls are the `calls` trace.
- Async and await are modelled as sequential method calls, with no concurrency.
- The localized event names (`get_localized_defaults`) are a parameter (`EventNames`). The translation tables are not part of this model.
- `datetime.strptime` of the event times is abstracted to the hour and minute it reads, with None for a missing or unparsable value. Dates are day numbers and instants are seconds.
- Entry settings are strings, integers or None. Float settings and `int()` of non-ASCII digits or of text with underscores are not modelled.
- An entry key that is present with the value None is treated as missing for the map and list settings. For a map setting the code would parse an empty map instead, and for the day modes it would raise on `None.split`.
- HomeShift.ConfigOf: a mode setting (default, weekend, holiday, absence) present with the value None is given the default mode in the model. The code keeps None (coordinator.py:104-108): `_determine_mode` can then return None and the tick makes no mode change (coordinator.py:438-439), and a None absence mode never matches the day mode.
- HomeShift.Decide: `_determine_mode` reads `dt_util.now()` a second time for the weekend test (coordinator.py:480). The model uses the tick's single `Now` for both reads, so a tick that crosses midnight between the two reads is not modelled.
- `Strings.Lower` covers ASCII and Latin-1 only. Python's full Unicode case mapping is not modelled.
- The `day_mode` property setter of the HomeShift coordinator is left out, because it exists only for test set-up. The read-only properties are the class's fields.
- The configuration flow's steps, schemas, selectors, options flow and `_effective_data` are not modelled. Only the helpers listed under "## Model" are.
- ConfigFlow.RebuildThermostatMap: form fields are modelled as text. A non-text value submitted in a display field is not modelled.
- DayMode: `_setup_daily_check` and `_handle_daily_check` only register a host callback and are not modelled. `CheckNextDay` is the callback's body.
- DayMode.DayModeCoordinator.UpdateData: a `start_time` that is not text is not modelled. For such a value the code's `try`/`except` logs and reports "Aucun".
- DayMode.DayModeCoordinator.CheckNextDay: the refresh is assumed to succeed, so `self.data` is the fresh `_async_update_data` result. The two reads of `datetime.now()` are given as `today` and `weekday`.
- The scheduler placeholder of the Day Mode coordinator has no effect besides logging. The model only counts its calls.
