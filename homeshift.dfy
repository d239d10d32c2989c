/**
 * The HomeShift coordinator: the household's day mode and thermostat mode,
 * the day-scoped event type, and the manual-override timer. A periodic tick
 * reads the calendar, remembers the day's event type and, unless the
 * absence mode or an override is in force, moves the day mode to the one
 * the resolver picks; manual setters write the modes directly. Every change
 * of mode refreshes the scheduler switches.
 *
 * The pure functions below (`Tick`, `SetDayModeSpec`, ...) say what each
 * operation does to the state; the class `Coordinator` does it in place.
 */
module HomeShift {
  import opened Wrappers
  import opened Strings
  import opened OrderedMaps
  import opened ModeMaps
  import opened EventPeriods
  import opened Host
  import opened Schedulers

  // ---- configuration defaults ----

  const DEFAULT_DAY_MODES: seq<string> := ["Maison", "Travail", "Télétravail", "Absence"]
  const DEFAULT_THERMOSTAT_MODE_MAP := "Off:Eteint, Heating:Chauffage, Cooling:Climatisation, Ventilation:Ventilation"
  const DEFAULT_SCAN_INTERVAL := 60
  const DEFAULT_OVERRIDE_DURATION := 0
  const DEFAULT_MODE_DEFAULT := "Travail"
  const DEFAULT_MODE_WEEKEND := "Maison"
  const DEFAULT_MODE_HOLIDAY := "Maison"
  const DEFAULT_EVENT_MODE_MAP := "Vacances:Maison, Télétravail:Télétravail"
  const DEFAULT_MODE_ABSENCE := "Absence"
  /** The thermostat mode when the thermostat map has no entry. */
  const THERMOSTAT_FALLBACK_MODE := "Off"

  /** A numeric setting as the config entry may hold it. */
  datatype Value = Text(s: string) | Number(n: int) | Null

  /** Python's `int(v)`; `None` where it raises `ValueError` or `TypeError`. */
  function ToInt(v: Value): Option<int> {
    match v
    case Number(n) => Some(n)
    case Text(s) => ParseInt(s)
    case Null => None
  }

  /** Python truthiness. */
  predicate Truthy(v: Value) {
    match v
    case Number(n) => n != 0
    case Text(s) => s != ""
    case Null => false
  }

  /** The config entry's data; `None` is a key that is not present. */
  datatype EntryData = EntryData(
    calendarEntity: Option<string>,
    holidayCalendar: Option<string>,
    dayModes: Option<string>,
    thermostatModeMap: Option<string>,
    schedulersPerMode: Option<SchedulerMap>,
    scanInterval: Option<Value>,
    overrideDuration: Option<Value>,
    modeDefault: Option<string>,
    modeWeekend: Option<string>,
    modeHoliday: Option<string>,
    eventModeMap: Option<string>,
    modeAbsence: Option<string>)

  /** The localized event-type names: no event, vacation, telework. */
  datatype EventNames = EventNames(none: string, vacation: string, telework: string)

  /** The settings the coordinator works with, read once from the entry. */
  datatype Config = Config(
    calendarEntity: Option<string>,
    holidayCalendar: string,
    dayModes: seq<string>,
    thermostatMap: seq<(string, string)>,
    eventModeMap: seq<(string, string)>,
    modeDefault: string,
    modeWeekend: string,
    modeHoliday: string,
    modeAbsence: string,
    schedulersPerMode: SchedulerMap,
    scanInterval: int,
    events: EventNames)

  /** `int(scan_interval)`, falling back to the default when it raises. */
  function ScanIntervalOf(raw: Option<Value>): (r: int)
    ensures raw.None? ==> r == DEFAULT_SCAN_INTERVAL
    ensures raw.Some? && ToInt(raw.value).None? ==> r == DEFAULT_SCAN_INTERVAL
    ensures raw.Some? && ToInt(raw.value).Some? ==> r == ToInt(raw.value).value
  {
    match raw
    case None => DEFAULT_SCAN_INTERVAL
    case Some(v) => ToInt(v).GetOr(DEFAULT_SCAN_INTERVAL)
  }

  /** `int(override_raw or 0)`, falling back to the default when it raises. */
  function OverrideDurationOf(raw: Option<Value>): (r: int)
    ensures raw.None? || !Truthy(raw.value) ==> r == 0
    ensures raw.Some? && Truthy(raw.value) && ToInt(raw.value).None? ==> r == DEFAULT_OVERRIDE_DURATION
    ensures raw.Some? && Truthy(raw.value) && ToInt(raw.value).Some? ==> r == ToInt(raw.value).value
  {
    match raw
    case None => 0
    case Some(v) => if !Truthy(v) then 0 else ToInt(v).GetOr(DEFAULT_OVERRIDE_DURATION)
  }

  /** `[mode.strip() for mode in s.split(",")]`: empty items are kept. */
  function DayModeList(s: string): (r: seq<string>)
    ensures |r| == |Split(s, ',')| && forall i :: 0 <= i < |r| ==> r[i] == Strip(Split(s, ',')[i])
  {
    StripAll(Split(s, ','))
  }

  /** Every day mode is stripped and free of commas. */
  lemma DayModeListClean(s: string)
    ensures forall i :: 0 <= i < |DayModeList(s)| ==> Stripped(DayModeList(s)[i]) && ',' !in DayModeList(s)[i]
  {
    var pieces := Split(s, ',');
    SplitPiecesFree(s, ',');
    forall i | 0 <= i < |pieces| ensures Stripped(Strip(pieces[i])) && ',' !in Strip(pieces[i]) {
      StripIsStripped(pieces[i]);
      StripKeepsOut(pieces[i], ',');
    }
  }

  /** The default day-mode text, `", ".join(DEFAULT_DAY_MODES)`. */
  function DefaultDayModesText(): string {
    Join(DEFAULT_DAY_MODES, ", ")
  }

  /** Splitting the default day-mode text gives the default list back. */
  lemma DefaultDayModesRoundTrip()
    ensures DayModeList(DefaultDayModesText()) == DEFAULT_DAY_MODES
  {
    assert CleanItems(DEFAULT_DAY_MODES, ',');
    DayModeListOfJoin(DEFAULT_DAY_MODES);
  }

  /** Splitting a joined list of clean day modes gives the list back. */
  lemma DayModeListOfJoin(xs: seq<string>)
    requires |xs| >= 1 && CleanItems(xs, ',')
    ensures DayModeList(Join(xs, ", ")) == xs
  {
    SplitStripJoin(xs, ", ");
  }

  /**
   * The configured day modes, `DefaultDayModesText()` standing in for a
   * missing setting; `DefaultDayModesRoundTrip` shows that this text parses
   * back to `DEFAULT_DAY_MODES`.
   */
  function DayModesOf(raw: Option<string>): seq<string> {
    match raw
    case Some(s) => DayModeList(s)
    case None => DEFAULT_DAY_MODES
  }

  /** The display values of the thermostat map, in order (`thermostat_modes`). */
  function ThermostatModes(m: seq<(string, string)>): seq<string> {
    Values(m)
  }

  /** The thermostat mode at start-up: the first display value, or "Off" if there is none. */
  function InitialThermostatMode(m: seq<(string, string)>): (r: string)
    ensures m != [] ==> r == m[0].1 && r in ThermostatModes(m)
    ensures m == [] ==> r == THERMOSTAT_FALLBACK_MODE
  {
    if |ThermostatModes(m)| > 0 then ThermostatModes(m)[0] else THERMOSTAT_FALLBACK_MODE
  }

  /** The settings `__init__` reads from the entry, with their defaults. */
  function ConfigOf(data: EntryData, events: EventNames): Config {
    Config(
      data.calendarEntity,
      data.holidayCalendar.GetOr(""),
      DayModesOf(data.dayModes),
      ThermostatModeMapOf(data.thermostatModeMap.GetOr(DEFAULT_THERMOSTAT_MODE_MAP)),
      EventModeMapOf(data.eventModeMap.GetOr(DEFAULT_EVENT_MODE_MAP)),
      data.modeDefault.GetOr(DEFAULT_MODE_DEFAULT),
      data.modeWeekend.GetOr(DEFAULT_MODE_WEEKEND),
      data.modeHoliday.GetOr(DEFAULT_MODE_HOLIDAY),
      data.modeAbsence.GetOr(DEFAULT_MODE_ABSENCE),
      data.schedulersPerMode.GetOr(map[]),
      ScanIntervalOf(data.scanInterval),
      events)
  }

  // ---- the coordinator's state ----

  /** The coordinator's mutable fields. */
  datatype CoordState = CoordState(
    dayMode: string,
    currentEvent: Option<string>,
    eventPeriod: Option<Period>,
    todayType: string,
    todayDate: Option<int>,
    overrideDurationMinutes: int,
    overrideUntil: Option<int>,
    thermostatMode: string)

  /** The state right after `__init__`. */
  function InitialState(cfg: Config, overrideDuration: int): CoordState {
    CoordState(DEFAULT_DAY_MODES[0], None, None, cfg.events.none, None, overrideDuration, None,
               InitialThermostatMode(cfg.thermostatMap))
  }

  /**
   * What holds of the state at all times: the day mode is a configured one
   * (or still the start-up one), the thermostat mode is a display value (or
   * the fallback when there are none), and no date means no event type.
   */
  predicate ModeInvariant(cfg: Config, s: CoordState) {
    && (s.dayMode in cfg.dayModes || s.dayMode == DEFAULT_DAY_MODES[0])
    && (s.thermostatMode in ThermostatModes(cfg.thermostatMap)
        || (cfg.thermostatMap == [] && s.thermostatMode == THERMOSTAT_FALLBACK_MODE))
    && (s.todayDate.None? ==> s.todayType == cfg.events.none)
  }

  /** The start-up state satisfies the invariant. */
  lemma InitialStateValid(cfg: Config, overrideDuration: int)
    ensures ModeInvariant(cfg, InitialState(cfg, overrideDuration))
  {
  }

  /** The dict `_build_result` returns. */
  datatype Snapshot = Snapshot(
    todayType: string,
    currentEvent: Option<string>,
    eventPeriod: Option<Period>,
    dayMode: string,
    thermostatMode: string,
    thermostatModeKey: Option<string>,
    overrideUntil: Option<int>)

  // ---- thermostat lookups ----

  /** `thermostat_mode_key`: the first key whose display value is `mode`. */
  function KeyOfDisplay(m: seq<(string, string)>, mode: string): (r: Option<string>)
    ensures r.None? <==> mode !in ThermostatModes(m)
    ensures r.Some? ==> exists i :: 0 <= i < |m| && m[i] == (r.value, mode)
                                    && forall j :: 0 <= j < i ==> m[j].1 != mode
  {
    if m == [] then None
    else if m[0].1 == mode then
      assert ThermostatModes(m)[0] == mode;
      Some(m[0].0)
    else
      var r := KeyOfDisplay(m[1..], mode);
      assert ThermostatModes(m) == [m[0].1] + ThermostatModes(m[1..]);
      if r.Some? then
        var i :| 0 <= i < |m[1..]| && m[1..][i] == (r.value, mode) && forall j :: 0 <= j < i ==> m[1..][j].1 != mode;
        assert m[i + 1] == (r.value, mode);
        r
      else r
  }

  /** The display value of the first key equal to `modeLower` once lower-cased. */
  function DisplayOfKey(m: seq<(string, string)>, modeLower: string): (r: Option<string>)
    ensures r.None? <==> forall i :: 0 <= i < |m| ==> Lower(m[i].0) != modeLower
    ensures r.Some? ==> exists i :: 0 <= i < |m| && Lower(m[i].0) == modeLower && m[i].1 == r.value
                                    && forall j :: 0 <= j < i ==> Lower(m[j].0) != modeLower
  {
    if m == [] then None
    else if Lower(m[0].0) == modeLower then Some(m[0].1)
    else
      var r := DisplayOfKey(m[1..], modeLower);
      if r.Some? then
        var i :| 0 <= i < |m[1..]| && Lower(m[1..][i].0) == modeLower && m[1..][i].1 == r.value
                 && forall j :: 0 <= j < i ==> Lower(m[1..][j].0) != modeLower;
        assert m[i + 1] == m[1..][i];
        r
      else r
  }

  /**
   * `_resolve_thermostat_display`: a display value is kept as it is, else a
   * key matched without regard to case gives its display value.
   */
  function ResolveThermostatDisplay(m: seq<(string, string)>, mode: string): (r: Option<string>)
    ensures r.Some? ==> r.value in ThermostatModes(m)
    ensures mode in ThermostatModes(m) ==> r == Some(mode)
    ensures r.None? <==> mode !in ThermostatModes(m) && forall i :: 0 <= i < |m| ==> Lower(m[i].0) != Lower(mode)
  {
    if mode in ThermostatModes(m) then Some(mode)
    else
      var r := DisplayOfKey(m, Lower(mode));
      if r.Some? then
        var i :| 0 <= i < |m| && Lower(m[i].0) == Lower(mode) && m[i].1 == r.value;
        assert ThermostatModes(m)[i] == r.value;
        r
      else r
  }

  /** One step of the key search: entry `i` answers, or the search goes on after it. */
  lemma KeyOfDisplayStep(m: seq<(string, string)>, i: nat, mode: string)
    requires i < |m|
    ensures KeyOfDisplay(m[i..], mode) == if m[i].1 == mode then Some(m[i].0) else KeyOfDisplay(m[i + 1..], mode)
  {
    assert m[i..][1..] == m[i + 1..];
  }

  /** One step of the display search: entry `i` answers, or the search goes on after it. */
  lemma DisplayOfKeyStep(m: seq<(string, string)>, i: nat, modeLower: string)
    requires i < |m|
    ensures DisplayOfKey(m[i..], modeLower) == if Lower(m[i].0) == modeLower then Some(m[i].1) else DisplayOfKey(m[i + 1..], modeLower)
  {
    assert m[i..][1..] == m[i + 1..];
  }

  /** The loop of `thermostat_mode_key`. */
  method FindThermostatKey(m: seq<(string, string)>, mode: string) returns (key: Option<string>)
    ensures key == KeyOfDisplay(m, mode)
  {
    for i := 0 to |m|
      invariant KeyOfDisplay(m[i..], mode) == KeyOfDisplay(m, mode)
    {
      KeyOfDisplayStep(m, i, mode);
      if m[i].1 == mode {
        return Some(m[i].0);
      }
    }
    assert m[|m|..] == [];
    return None;
  }

  /** The membership test and the loop of `_resolve_thermostat_display`. */
  method FindThermostatDisplay(m: seq<(string, string)>, mode: string) returns (display: Option<string>)
    ensures display == ResolveThermostatDisplay(m, mode)
  {
    if mode in ThermostatModes(m) {
      return Some(mode);
    }
    var modeLower := Lower(mode);
    for i := 0 to |m|
      invariant DisplayOfKey(m[i..], modeLower) == DisplayOfKey(m, modeLower)
    {
      DisplayOfKeyStep(m, i, modeLower);
      if Lower(m[i].0) == modeLower {
        return Some(m[i].1);
      }
    }
    assert m[|m|..] == [];
    return None;
  }

  // ---- the resolver ----

  /** The configured event type's mode, when today's type is one the event map knows. */
  function MappedMode(cfg: Config, todayType: string): (r: Option<string>)
    ensures r.Some? ==> r.value != "" && r.value in Values(cfg.eventModeMap)
    ensures r.Some? <==> todayType != "" && todayType != cfg.events.none
                         && Get(cfg.eventModeMap, Lower(todayType)).Some?
                         && Get(cfg.eventModeMap, Lower(todayType)).value != ""
  {
    if todayType != "" && todayType != cfg.events.none then
      var mapped := Get(cfg.eventModeMap, Lower(todayType));
      if mapped.Some? && mapped.value != "" then
        var i :| 0 <= i < |cfg.eventModeMap| && cfg.eventModeMap[i] == (Lower(todayType), mapped.value);
        assert Values(cfg.eventModeMap)[i] == mapped.value;
        mapped
      else None
    else None
  }

  /** The holiday calendar exists and reports "on". */
  predicate IsHoliday(cfg: Config, states: States) {
    var holiday := Lookup(states, cfg.holidayCalendar);
    holiday.Some? && holiday.value.state == "on"
  }

  /**
   * `_determine_mode`: the mapped event mode, else the weekend mode, else
   * the holiday mode, else the default mode. The answer is always one of
   * the configured modes of the rule.
   */
  function DetermineMode(cfg: Config, todayType: string, now: Now, states: States): (r: string)
    ensures r in Values(cfg.eventModeMap) || r == cfg.modeWeekend || r == cfg.modeHoliday || r == cfg.modeDefault
  {
    var mapped := MappedMode(cfg, todayType);
    if mapped.Some? then mapped.value
    else if IsWeekend(now) then cfg.modeWeekend
    else if IsHoliday(cfg, states) then cfg.modeHoliday
    else cfg.modeDefault
  }

  // ---- the periodic tick ----

  predicate CalendarConfigured(cfg: Config) {
    cfg.calendarEntity.Some? && cfg.calendarEntity.value != ""
  }

  /** The calendar reports an active event with a message. */
  predicate HasEvent(cal: EntityState) {
    cal.state == "on" && cal.message != ""
  }

  /**
   * The event type of one tick: the vacation name if it occurs in the
   * message ignoring case, else the telework name, else the message itself;
   * the no-event name when there is no active event.
   */
  function TickType(cfg: Config, cal: EntityState): (r: string)
    ensures !HasEvent(cal) ==> r == cfg.events.none
    ensures HasEvent(cal) ==> r == cfg.events.vacation || r == cfg.events.telework || r == cal.message
    ensures HasEvent(cal) && Contains(Lower(cal.message), Lower(cfg.events.vacation)) ==> r == cfg.events.vacation
    ensures HasEvent(cal) && !Contains(Lower(cal.message), Lower(cfg.events.vacation)) ==>
              (Contains(Lower(cal.message), Lower(cfg.events.telework)) ==> r == cfg.events.telework)
    ensures HasEvent(cal) && !Contains(Lower(cal.message), Lower(cfg.events.vacation)) ==>
              (!Contains(Lower(cal.message), Lower(cfg.events.telework)) ==> r == cal.message)
  {
    if HasEvent(cal) then
      var message := Lower(cal.message);
      if Contains(message, Lower(cfg.events.vacation)) then cfg.events.vacation
      else if Contains(message, Lower(cfg.events.telework)) then cfg.events.telework
      else cal.message
    else cfg.events.none
  }

  /** The manual override holds at `now`. */
  predicate OverrideActive(s: CoordState, now: Now) {
    s.overrideUntil.Some? && now.instant < s.overrideUntil.value
  }

  /** A new state, and whether the schedulers are to be refreshed for it. */
  datatype Outcome = Outcome(state: CoordState, refreshed: bool)

  /** The calendar's date rollover: a new date resets the day's event type. */
  function Rollover(cfg: Config, s: CoordState, now: Now): CoordState {
    if Some(now.date) != s.todayDate then s.(todayType := cfg.events.none, todayDate := Some(now.date)) else s
  }

  /** Recording the calendar's event: the transient event fields, and the day's type when it is not "none". */
  function Observe(cfg: Config, s: CoordState, cal: EntityState): CoordState {
    if HasEvent(cal) then
      var tickType := TickType(cfg, cal);
      s.(currentEvent := Some(cal.message),
         eventPeriod := Some(DetectEventPeriod(cal.start, cal.end)),
         todayType := if tickType != cfg.events.none then tickType else s.todayType)
    else
      s.(currentEvent := None, eventPeriod := None)
  }

  /** The mode decision, made with the tick's own event type. */
  function Decide(cfg: Config, s: CoordState, tickType: string, now: Now, states: States): Outcome {
    if s.dayMode == cfg.modeAbsence then Outcome(s, false)
    else if OverrideActive(s, now) then Outcome(s, false)
    else
      var cleared := s.(overrideUntil := None);
      var newMode := DetermineMode(cfg, tickType, now, states);
      if newMode != "" && newMode != cleared.dayMode && newMode in cfg.dayModes then
        Outcome(cleared.(dayMode := newMode), true)
      else
        Outcome(cleared, false)
  }

  /** `_async_update_data`: what one tick does to the state. */
  function Tick(cfg: Config, s: CoordState, now: Now, states: States): Outcome {
    if !CalendarConfigured(cfg) || cfg.calendarEntity.value !in states then Outcome(s, false)
    else
      var cal := states[cfg.calendarEntity.value];
      var seen := Observe(cfg, Rollover(cfg, s, now), cal);
      Decide(cfg, seen, TickType(cfg, cal), now, states)
  }

  /** `_build_result`. */
  function BuildResult(cfg: Config, s: CoordState): (r: Snapshot)
    ensures r.todayType == s.todayType && r.dayMode == s.dayMode && r.overrideUntil == s.overrideUntil
    ensures r.currentEvent == s.currentEvent && r.eventPeriod == s.eventPeriod && r.thermostatMode == s.thermostatMode
    ensures r.thermostatModeKey.Some? ==> (r.thermostatModeKey.value, r.thermostatMode) in cfg.thermostatMap
    ensures r.thermostatModeKey.None? <==> s.thermostatMode !in ThermostatModes(cfg.thermostatMap)
  {
    Snapshot(s.todayType, s.currentEvent, s.eventPeriod, s.dayMode, s.thermostatMode,
             KeyOfDisplay(cfg.thermostatMap, s.thermostatMode), s.overrideUntil)
  }

  // ---- manual setters ----

  /** The override deadline a manual change arms: `now + d` minutes, none when `d` is not positive. */
  function Arm(durationMinutes: int, now: Now): (r: Option<int>)
    ensures r.Some? <==> durationMinutes > 0
    ensures r.Some? ==> r.value > now.instant
  {
    if durationMinutes > 0 then Some(now.instant + 60 * durationMinutes) else None
  }

  /** `async_set_day_mode`: a configured mode is written and re-arms the override; any other is ignored. */
  function SetDayModeSpec(cfg: Config, s: CoordState, now: Now, mode: string): Outcome {
    if mode !in cfg.dayModes then Outcome(s, false)
    else Outcome(s.(dayMode := mode, overrideUntil := Arm(s.overrideDurationMinutes, now)), true)
  }

  /** `async_set_thermostat_mode`: a resolvable value sets the display value; any other is ignored. */
  function SetThermostatModeSpec(cfg: Config, s: CoordState, mode: string): Outcome {
    match ResolveThermostatDisplay(cfg.thermostatMap, mode)
    case None => Outcome(s, false)
    case Some(display) => Outcome(s.(thermostatMode := display), true)
  }

  /** `set_override_duration_minutes`: never negative. */
  function SetOverrideDurationSpec(s: CoordState, minutes: int): (r: CoordState)
    ensures r.overrideDurationMinutes >= 0
    ensures minutes >= 0 ==> r.overrideDurationMinutes == minutes
    ensures minutes < 0 ==> r.overrideDurationMinutes == 0
    ensures r.(overrideDurationMinutes := s.overrideDurationMinutes) == s
  {
    s.(overrideDurationMinutes := if minutes > 0 then minutes else 0)
  }

  // ---- the invariant every operation keeps ----

  /** The first half of a tick keeps the invariant: the rollover leaves a date behind. */
  lemma ObserveKeepsInvariant(cfg: Config, s: CoordState, now: Now, cal: EntityState)
    requires ModeInvariant(cfg, s)
    ensures ModeInvariant(cfg, Observe(cfg, Rollover(cfg, s, now), cal))
  {
  }

  /** The second half of a tick keeps the invariant: a new mode is always a configured one. */
  lemma DecideKeepsInvariant(cfg: Config, s: CoordState, tickType: string, now: Now, states: States)
    requires ModeInvariant(cfg, s)
    ensures ModeInvariant(cfg, Decide(cfg, s, tickType, now, states).state)
  {
  }

  lemma TickKeepsInvariant(cfg: Config, s: CoordState, now: Now, states: States)
    requires ModeInvariant(cfg, s)
    ensures ModeInvariant(cfg, Tick(cfg, s, now, states).state)
  {
    if CalendarConfigured(cfg) && cfg.calendarEntity.value in states {
      var cal := states[cfg.calendarEntity.value];
      ObserveKeepsInvariant(cfg, s, now, cal);
      DecideKeepsInvariant(cfg, Observe(cfg, Rollover(cfg, s, now), cal), TickType(cfg, cal), now, states);
    }
  }

  lemma SetDayModeKeepsInvariant(cfg: Config, s: CoordState, now: Now, mode: string)
    requires ModeInvariant(cfg, s)
    ensures ModeInvariant(cfg, SetDayModeSpec(cfg, s, now, mode).state)
  {
  }

  lemma SetThermostatModeKeepsInvariant(cfg: Config, s: CoordState, mode: string)
    requires ModeInvariant(cfg, s)
    ensures ModeInvariant(cfg, SetThermostatModeSpec(cfg, s, mode).state)
  {
  }

  lemma SetOverrideDurationKeepsInvariant(cfg: Config, s: CoordState, minutes: int)
    requires ModeInvariant(cfg, s)
    ensures ModeInvariant(cfg, SetOverrideDurationSpec(s, minutes))
  {
  }

  /** The calls a scheduler refresh issues in state `s`. */
  ghost function RefreshCallsIn(cfg: Config, s: CoordState, states: States): seq<ServiceCall> {
    RefreshCalls(cfg.schedulersPerMode, s.dayMode, KeyOfDisplay(cfg.thermostatMap, s.thermostatMode),
                 cfg.thermostatMap, states)
  }

  /** The calls issued after an outcome. */
  ghost function CallsAfter(cfg: Config, o: Outcome, states: States): seq<ServiceCall> {
    if o.refreshed then RefreshCallsIn(cfg, o.state, states) else []
  }

  // ---- the coordinator object ----

  class Coordinator {
    const cfg: Config
    var dayMode: string
    var currentEvent: Option<string>
    var eventPeriod: Option<Period>
    var todayType: string
    var todayDate: Option<int>
    var overrideDurationMinutes: int
    var overrideUntil: Option<int>
    var thermostatMode: string
    /** The switch service calls issued so far, oldest first. */
    var calls: seq<ServiceCall>

    function State(): CoordState
      reads this
    {
      CoordState(dayMode, currentEvent, eventPeriod, todayType, todayDate,
                 overrideDurationMinutes, overrideUntil, thermostatMode)
    }

    ghost predicate Valid()
      reads this
    {
      ModeInvariant(cfg, State())
    }

    /** `__init__`: parse the entry, falling back to the defaults. */
    constructor (data: EntryData, events: EventNames)
      ensures cfg == ConfigOf(data, events)
      ensures State() == InitialState(cfg, OverrideDurationOf(data.overrideDuration))
      ensures calls == []
      ensures Valid()
    {
      var thermostatMap := ParseThermostatModeMap(data.thermostatModeMap.GetOr(DEFAULT_THERMOSTAT_MODE_MAP));
      var eventModeMap := ParseEventModeMap(data.eventModeMap.GetOr(DEFAULT_EVENT_MODE_MAP));
      var c := Config(
        data.calendarEntity,
        data.holidayCalendar.GetOr(""),
        DayModesOf(data.dayModes),
        thermostatMap,
        eventModeMap,
        data.modeDefault.GetOr(DEFAULT_MODE_DEFAULT),
        data.modeWeekend.GetOr(DEFAULT_MODE_WEEKEND),
        data.modeHoliday.GetOr(DEFAULT_MODE_HOLIDAY),
        data.modeAbsence.GetOr(DEFAULT_MODE_ABSENCE),
        data.schedulersPerMode.GetOr(map[]),
        ScanIntervalOf(data.scanInterval),
        events);
      assert c == ConfigOf(data, events);
      cfg := c;
      dayMode := DEFAULT_DAY_MODES[0];
      currentEvent := None;
      eventPeriod := None;
      todayType := events.none;
      todayDate := None;
      overrideDurationMinutes := OverrideDurationOf(data.overrideDuration);
      overrideUntil := None;
      thermostatMode := InitialThermostatMode(thermostatMap);
      calls := [];
      InitialStateValid(c, OverrideDurationOf(data.overrideDuration));
    }

    /** `thermostat_mode_key`. */
    method ThermostatModeKey() returns (key: Option<string>)
      requires Valid()
      ensures key == KeyOfDisplay(cfg.thermostatMap, thermostatMode)
      ensures cfg.thermostatMap != [] ==> key.Some? && (key.value, thermostatMode) in cfg.thermostatMap
    {
      key := FindThermostatKey(cfg.thermostatMap, thermostatMode);
    }

    /** `_build_result`. */
    method BuildSnapshot() returns (r: Snapshot)
      requires Valid()
      ensures r == BuildResult(cfg, State())
    {
      var key := ThermostatModeKey();
      r := Snapshot(todayType, currentEvent, eventPeriod, dayMode, thermostatMode, key, overrideUntil);
    }

    /** `async_refresh_schedulers`: turn off, then turn on, the switches the diff selects. */
    method RefreshSchedulers(states: States)
      requires Valid()
      modifies this`calls
      ensures calls == old(calls) + RefreshCallsIn(cfg, State(), states)
      ensures Valid()
    {
      var spm := cfg.schedulersPerMode;
      if spm == map[] {
        return;
      }
      var key := ThermostatModeKey();
      var toEnable, toDisable := ComputeSchedulerDiff(spm, dayMode, key, cfg.thermostatMap, states);
      if toDisable != {} {
        var ids := Sorted(toDisable);
        calls := calls + [ServiceCall(TurnOff, ids)];
      }
      if toEnable != {} {
        var ids := Sorted(toEnable);
        calls := calls + [ServiceCall(TurnOn, ids)];
      }
    }

    /** `_async_update_data`: one periodic tick. */
    method Update(now: Now, states: States) returns (result: Snapshot)
      requires Valid()
      modifies this
      ensures Valid()
      ensures State() == Tick(cfg, old(State()), now, states).state
      ensures calls == old(calls) + CallsAfter(cfg, Tick(cfg, old(State()), now, states), states)
      ensures result == BuildResult(cfg, State())
    {
      if !CalendarConfigured(cfg) {
        result := BuildSnapshot();
        return;
      }
      var found := Lookup(states, cfg.calendarEntity.value);
      if found.None? {
        result := BuildSnapshot();
        return;
      }
      var tickType := ObserveCalendar(found.value, now);
      ApplyMode(tickType, now, states);
      result := BuildSnapshot();
    }

    /** The first half of a tick: the date rollover and the calendar's event. */
    method ObserveCalendar(cal: EntityState, now: Now) returns (tickType: string)
      requires Valid()
      modifies this
      ensures Valid()
      ensures State() == Observe(cfg, Rollover(cfg, old(State()), now), cal)
      ensures tickType == TickType(cfg, cal)
      ensures calls == old(calls)
    {
      currentEvent := None;
      eventPeriod := None;
      tickType := cfg.events.none;

      if Some(now.date) != todayDate {
        todayType := cfg.events.none;
        todayDate := Some(now.date);
      }

      if cal.state == "on" {
        var message := cal.message;
        if message != "" {
          currentEvent := Some(message);
          eventPeriod := Some(DetectEventPeriod(cal.start, cal.end));
          var lowered := Lower(message);
          if Contains(lowered, Lower(cfg.events.vacation)) {
            tickType := cfg.events.vacation;
          } else if Contains(lowered, Lower(cfg.events.telework)) {
            tickType := cfg.events.telework;
          } else {
            tickType := message;
          }
          if tickType != cfg.events.none {
            todayType := tickType;
          }
        }
      }
    }

    /** The second half of a tick: the absence and override gates, then the resolver. */
    method ApplyMode(tickType: string, now: Now, states: States)
      requires Valid()
      modifies this
      ensures Valid()
      ensures State() == Decide(cfg, old(State()), tickType, now, states).state
      ensures calls == old(calls) + CallsAfter(cfg, Decide(cfg, old(State()), tickType, now, states), states)
    {
      if dayMode == cfg.modeAbsence {
        return;
      }
      if overrideUntil.Some? && now.instant < overrideUntil.value {
        return;
      }
      overrideUntil := None;
      var newMode := DetermineMode(cfg, tickType, now, states);
      if newMode != "" && newMode != dayMode && newMode in cfg.dayModes {
        dayMode := newMode;
        RefreshSchedulers(states);
      }
    }

    /** `async_set_day_mode`. */
    method SetDayMode(mode: string, now: Now, states: States)
      requires Valid()
      modifies this
      ensures Valid()
      ensures State() == SetDayModeSpec(cfg, old(State()), now, mode).state
      ensures calls == old(calls) + CallsAfter(cfg, SetDayModeSpec(cfg, old(State()), now, mode), states)
    {
      if mode !in cfg.dayModes {
        return;
      }
      dayMode := mode;
      if overrideDurationMinutes > 0 {
        overrideUntil := Some(now.instant + 60 * overrideDurationMinutes);
      } else {
        overrideUntil := None;
      }
      RefreshSchedulers(states);
    }

    /** `async_set_thermostat_mode`. */
    method SetThermostatMode(mode: string, states: States)
      requires Valid()
      modifies this
      ensures Valid()
      ensures State() == SetThermostatModeSpec(cfg, old(State()), mode).state
      ensures calls == old(calls) + CallsAfter(cfg, SetThermostatModeSpec(cfg, old(State()), mode), states)
    {
      var resolved := FindThermostatDisplay(cfg.thermostatMap, mode);
      if resolved.None? {
        return;
      }
      thermostatMode := resolved.value;
      RefreshSchedulers(states);
    }

    /** `set_override_duration_minutes`. */
    method SetOverrideDurationMinutes(minutes: int)
      requires Valid()
      modifies this
      ensures Valid()
      ensures State() == SetOverrideDurationSpec(old(State()), minutes)
      ensures calls == old(calls)
    {
      overrideDurationMinutes := if minutes > 0 then minutes else 0;
    }

    /** `async_check_next_day`: a tick, unless the absence mode is active. */
    method CheckNextDay(now: Now, states: States) returns (result: Option<Snapshot>)
      requires Valid()
      modifies this
      ensures Valid()
      ensures old(dayMode) == cfg.modeAbsence ==> result.None? && State() == old(State()) && calls == old(calls)
      ensures old(dayMode) != cfg.modeAbsence ==>
                && State() == Tick(cfg, old(State()), now, states).state
                && calls == old(calls) + CallsAfter(cfg, Tick(cfg, old(State()), now, states), states)
                && result == Some(BuildResult(cfg, State()))
    {
      if dayMode == cfg.modeAbsence {
        return None;
      }
      var snapshot := Update(now, states);
      result := Some(snapshot);
    }
  }
}
