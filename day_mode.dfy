/**
 * The legacy Day Mode coordinator (`DayModeCoordinator`), the predecessor of
 * the HomeShift coordinator: a day mode and a thermostat mode chosen from
 * two configured lists, and a next-day check that sets the day mode by a
 * fixed priority (Vacances, weekend, Télétravail, holiday, Travail) from the
 * calendar's current event.
 *
 * This module stands apart from the HomeShift model: it reads the raw
 * `start_time` and `message` attributes of the calendar, and it has no
 * event-type map and no override.
 */
module DayMode {
  import opened Wrappers
  import opened Strings
  import Host

  const DEFAULT_DAY_MODES: seq<string> := ["Maison", "Travail", "Télétravail", "Absence"]
  const DEFAULT_THERMOSTAT_MODES: seq<string> := ["Eteint", "Chauffage", "Climatisation", "Ventilation"]

  /** The calendar messages the coordinator recognises, and the value for any other day. */
  const EVENT_VACANCES := "Vacances"
  const EVENT_TELETRAVAIL := "Télétravail"
  const NO_EVENT := "Aucun"

  /** The day modes the next-day check chooses between. */
  const MODE_HOME := "Maison"
  const MODE_WORK := "Travail"
  const MODE_TELEWORK := "Télétravail"
  const MODE_ABSENCE := "Absence"

  /**
   * A calendar's state object as this coordinator reads it: the state
   * string and the raw `start_time` and `message` attributes (`None` when
   * absent).
   */
  datatype CalendarState = CalendarState(state: string, startTime: Option<string>, message: Option<string>)

  /** `hass.states`: entity id to state; an absent id is `None`. */
  type CalendarStates = map<string, CalendarState>

  /** The config entry's data; a missing key is `None`. */
  datatype EntryData = EntryData(
    calendarEntity: Option<string>,
    holidayCalendar: Option<string>,
    dayModes: Option<string>,
    thermostatModes: Option<string>)

  /** What `_async_update_data` returns (`self.data`). */
  datatype Data = Data(nextDayType: string, modeJour: string, modeThermostat: string)

  /**
   * `[mode.strip() for mode in s.split(",")]`, empty items kept; a missing
   * setting gives the defaults (`DefaultDayModesRoundTrip` and
   * `DefaultThermostatModesRoundTrip` show that the
   * default text `", ".join(defaults)` parses back to them).
   */
  function ModeList(raw: Option<string>, defaults: seq<string>): seq<string> {
    match raw
    case Some(s) => StripAll(Split(s, ','))
    case None => defaults
  }

  /** The comma-joined text of clean modes splits back into the same modes. */
  lemma ModeListOfJoin(xs: seq<string>)
    requires |xs| >= 1 && CleanItems(xs, ',')
    ensures ModeList(Some(Join(xs, ", ")), []) == xs
  {
    SplitStripJoin(xs, ", ");
  }

  /** `", ".join(DEFAULT_DAY_MODES)`, the text read when the setting is missing. */
  function DefaultDayModesText(): string {
    Join(DEFAULT_DAY_MODES, ", ")
  }

  /** `", ".join(DEFAULT_THERMOSTAT_MODES)`. */
  function DefaultThermostatModesText(): string {
    Join(DEFAULT_THERMOSTAT_MODES, ", ")
  }

  lemma DefaultDayModesRoundTrip()
    ensures ModeList(Some(DefaultDayModesText()), []) == DEFAULT_DAY_MODES
  {
    assert CleanItems(DEFAULT_DAY_MODES, ',');
    ModeListOfJoin(DEFAULT_DAY_MODES);
  }

  lemma DefaultThermostatModesRoundTrip()
    ensures ModeList(Some(DefaultThermostatModesText()), []) == DEFAULT_THERMOSTAT_MODES
  {
    assert CleanItems(DEFAULT_THERMOSTAT_MODES, ',');
    ModeListOfJoin(DEFAULT_THERMOSTAT_MODES);
  }

  /**
   * The text up to the first comma is one mode, even when it is blank: no
   * item is dropped, so ", Maison" lists an empty mode first.
   */
  lemma ModeListKeepsEmpty(first: string, rest: string)
    requires ',' !in first
    ensures ModeList(Some(first + "," + rest), []) == [Strip(first)] + ModeList(Some(rest), [])
  {
    assert first + "," + rest == first + [','] + rest;
    SplitAtSeparator(first, rest, ',');
    assert StripAll([first] + Split(rest, ',')) == [Strip(first)] + StripAll(Split(rest, ','));
  }

  /** `if event_start:` and its date part: the text before the first space, when there is a text. */
  function EventDate(startTime: Option<string>): (r: Option<string>)
    ensures r.Some? <==> startTime.Some? && startTime.value != ""
    ensures r.Some? ==> ' ' !in r.value && r.value <= startTime.value
    ensures r.Some? ==> r.value == startTime.value || startTime.value[|r.value|] == ' '
  {
    match startTime
    case Some(s) =>
      if s == "" then None
      else
        SplitHead(s, ' ');
        Some(Split(s, ' ')[0])
    case None => None
  }

  /** The first piece of a split is a prefix of the text and holds no separator. */
  lemma {:induction false} SplitHead(s: string, sep: char)
    ensures sep !in Split(s, sep)[0] && Split(s, sep)[0] <= s
    ensures Split(s, sep)[0] == s || s[|Split(s, sep)[0]|] == sep
  {
    if s != [] {
      SplitHead(s[1..], sep);
    }
  }

  /**
   * The calendar's current event starts today: a calendar is configured, it
   * has a state, and the date part of its `start_time` is `today`.
   */
  predicate EventToday(calendarEntity: Option<string>, states: CalendarStates, today: string) {
    calendarEntity.Some? && calendarEntity.value != "" && calendarEntity.value in states
    && EventDate(states[calendarEntity.value].startTime) == Some(today)
  }

  /**
   * `next_day_type` of `_async_update_data`: the current event's message
   * when the event starts today and its message is exactly "Vacances" or
   * "Télétravail", "Aucun" otherwise.
   */
  function NextDayType(calendarEntity: Option<string>, states: CalendarStates, today: string): (r: string)
    ensures r == NO_EVENT || r == EVENT_VACANCES || r == EVENT_TELETRAVAIL
    ensures r != NO_EVENT <==>
              EventToday(calendarEntity, states, today)
              && states[calendarEntity.value].message in {Some(EVENT_VACANCES), Some(EVENT_TELETRAVAIL)}
    ensures r != NO_EVENT ==> states[calendarEntity.value].message == Some(r)
  {
    assert NO_EVENT[0] != EVENT_VACANCES[0] && NO_EVENT[0] != EVENT_TELETRAVAIL[0];
    if calendarEntity.None? || calendarEntity.value == "" then NO_EVENT
    else match Host.Lookup(states, calendarEntity.value)
      case None => NO_EVENT
      case Some(cal) =>
        if EventDate(cal.startTime) == Some(today) then
          if cal.message == Some(EVENT_VACANCES) then EVENT_VACANCES
          else if cal.message == Some(EVENT_TELETRAVAIL) then EVENT_TELETRAVAIL
          else NO_EVENT
        else NO_EVENT
  }

  /** A holiday calendar is configured, has a state, and that state is "on". */
  function IsHoliday(holidayCalendar: Option<string>, states: CalendarStates): (r: bool)
    ensures r <==> holidayCalendar.Some? && holidayCalendar.value != ""
                   && holidayCalendar.value in states && states[holidayCalendar.value].state == "on"
  {
    match holidayCalendar
    case None => false
    case Some(id) =>
      id != "" && match Host.Lookup(states, id)
        case None => false
        case Some(st) => st.state == "on"
  }

  predicate IsWeekend(weekday: int) {
    weekday == 5 || weekday == 6
  }

  /**
   * The priority rule of `async_check_next_day`, first match wins:
   * Vacances, then the weekend, give Maison; then Télétravail gives
   * Télétravail; then a holiday gives Maison; any other day is Travail.
   */
  function NextDayMode(nextDayType: string, weekend: bool, holiday: bool): (r: string)
    ensures r == MODE_HOME || r == MODE_TELEWORK || r == MODE_WORK
    ensures r == MODE_TELEWORK <==> nextDayType == EVENT_TELETRAVAIL && !weekend
    ensures r == MODE_WORK <==> nextDayType != EVENT_VACANCES && nextDayType != EVENT_TELETRAVAIL && !weekend && !holiday
  {
    assert MODE_HOME[0] != MODE_WORK[0] && MODE_HOME[0] != MODE_TELEWORK[0] && MODE_WORK[1] != MODE_TELEWORK[1];
    assert EVENT_VACANCES[0] != EVENT_TELETRAVAIL[0];
    if nextDayType == EVENT_VACANCES then MODE_HOME
    else if weekend then MODE_HOME
    else if nextDayType == EVENT_TELETRAVAIL then MODE_TELEWORK
    else if holiday then MODE_HOME
    else MODE_WORK
  }

  /** `DayModeCoordinator`. */
  class DayModeCoordinator {
    const entry: EntryData
    const dayModes: seq<string>
    const thermostatModes: seq<string>
    var modeJour: string
    var modeThermostat: string
    /** `self.data`, `None` until the first refresh. */
    var data: Option<Data>
    /** How many times `async_refresh_schedulers` ran; it only logs. */
    var schedulerRefreshes: nat

    /** `__init__`: the first default modes, and the two lists read from the entry. */
    constructor (entry0: EntryData)
      ensures entry == entry0
      ensures dayModes == ModeList(entry0.dayModes, DEFAULT_DAY_MODES)
      ensures thermostatModes == ModeList(entry0.thermostatModes, DEFAULT_THERMOSTAT_MODES)
      ensures modeJour == DEFAULT_DAY_MODES[0] && modeThermostat == DEFAULT_THERMOSTAT_MODES[0]
      ensures data.None? && schedulerRefreshes == 0
    {
      entry := entry0;
      dayModes := ModeList(entry0.dayModes, DEFAULT_DAY_MODES);
      thermostatModes := ModeList(entry0.thermostatModes, DEFAULT_THERMOSTAT_MODES);
      modeJour := DEFAULT_DAY_MODES[0];
      modeThermostat := DEFAULT_THERMOSTAT_MODES[0];
      data := None;
      schedulerRefreshes := 0;
    }

    /** `async_refresh_schedulers`: a placeholder that only logs. */
    method RefreshSchedulers()
      modifies this`schedulerRefreshes
      ensures schedulerRefreshes == old(schedulerRefreshes) + 1
    {
      schedulerRefreshes := schedulerRefreshes + 1;
    }

    /** `async_set_mode_jour`: a configured mode becomes current and the schedulers refresh; any other value changes nothing. */
    method SetModeJour(mode: string)
      modifies this`modeJour, this`schedulerRefreshes
      ensures mode in dayModes ==> modeJour == mode && schedulerRefreshes == old(schedulerRefreshes) + 1
      ensures mode !in dayModes ==> modeJour == old(modeJour) && schedulerRefreshes == old(schedulerRefreshes)
    {
      if mode in dayModes {
        modeJour := mode;
        RefreshSchedulers();
      }
    }

    /** `async_set_mode_thermostat`: the same rule over the thermostat modes. */
    method SetModeThermostat(mode: string)
      modifies this`modeThermostat, this`schedulerRefreshes
      ensures mode in thermostatModes ==> modeThermostat == mode && schedulerRefreshes == old(schedulerRefreshes) + 1
      ensures mode !in thermostatModes ==> modeThermostat == old(modeThermostat) && schedulerRefreshes == old(schedulerRefreshes)
    {
      if mode in thermostatModes {
        modeThermostat := mode;
        RefreshSchedulers();
      }
    }

    /** `_async_update_data`, with `datetime.now().date().isoformat()` given as `today`. */
    method UpdateData(states: CalendarStates, today: string) returns (d: Data)
      ensures d == Data(NextDayType(entry.calendarEntity, states, today), modeJour, modeThermostat)
    {
      var nextDayType := NO_EVENT;
      var calendar := entry.calendarEntity;
      if calendar.Some? && calendar.value != "" {
        var cal := Host.Lookup(states, calendar.value);
        if cal.Some? {
          var date := EventDate(cal.value.startTime);
          if date == Some(today) {
            if cal.value.message == Some(EVENT_VACANCES) {
              nextDayType := EVENT_VACANCES;
            } else if cal.value.message == Some(EVENT_TELETRAVAIL) {
              nextDayType := EVENT_TELETRAVAIL;
            }
          }
        }
      }
      d := Data(nextDayType, modeJour, modeThermostat);
    }

    /**
     * `async_check_next_day`, with `datetime.now()` given as `today` and
     * `weekday`: nothing happens in Absence; otherwise the data is refreshed
     * and the mode the priority rule picks is applied when it is configured.
     */
    method CheckNextDay(states: CalendarStates, today: string, weekday: int)
      modifies this`modeJour, this`schedulerRefreshes, this`data
      ensures old(modeJour) == MODE_ABSENCE ==>
                modeJour == old(modeJour) && data == old(data) && schedulerRefreshes == old(schedulerRefreshes)
      ensures old(modeJour) != MODE_ABSENCE ==>
                var nextDayType := NextDayType(entry.calendarEntity, states, today);
                var mode := NextDayMode(nextDayType, IsWeekend(weekday), IsHoliday(entry.holidayCalendar, states));
                data == Some(Data(nextDayType, old(modeJour), modeThermostat))
                && modeJour == (if mode in dayModes then mode else old(modeJour))
                && schedulerRefreshes == old(schedulerRefreshes) + (if mode in dayModes then 1 else 0)
      ensures modeThermostat == old(modeThermostat)
    {
      if modeJour == MODE_ABSENCE {
        return;
      }
      var d := UpdateData(states, today);
      data := Some(d);
      var newMode := NextDayMode(d.nextDayType, IsWeekend(weekday), IsHoliday(entry.holidayCalendar, states));
      if newMode in dayModes {
        SetModeJour(newMode);
      }
    }
  }

  /** Vacances gives Maison whatever the day. */
  lemma VacancesIsHome(weekend: bool, holiday: bool)
    ensures NextDayMode(EVENT_VACANCES, weekend, holiday) == MODE_HOME
  {
  }

  /** On a weekend every day is Maison, telework included: the weekend ranks above Télétravail. */
  lemma WeekendBeatsTelework(nextDayType: string, holiday: bool)
    ensures NextDayMode(nextDayType, true, holiday) == MODE_HOME
  {
  }

  /** A weekday telework day is Télétravail even on a holiday: Télétravail ranks above the holiday. */
  lemma TeleworkBeatsHoliday()
    ensures NextDayMode(EVENT_TELETRAVAIL, false, true) == MODE_TELEWORK
  {
  }

  /** Without a calendar configured, every day is "Aucun" and a weekday is Travail unless it is a holiday. */
  lemma NoCalendarIsWorkOrHoliday(states: CalendarStates, today: string, weekday: int, holiday: bool)
    requires !IsWeekend(weekday)
    ensures NextDayType(None, states, today) == NO_EVENT
    ensures NextDayMode(NextDayType(None, states, today), false, holiday) == if holiday then MODE_HOME else MODE_WORK
  {
  }

  /** An event that starts on another day is not seen, whatever its message. */
  lemma OtherDayIsNoEvent(id: string, states: CalendarStates, today: string)
    requires id != "" && id in states
    requires EventDate(states[id].startTime) != Some(today)
    ensures NextDayType(Some(id), states, today) == NO_EVENT
  {
  }

  /** A message other than exactly "Vacances" or "Télétravail" is not seen: matching is exact and case-sensitive. */
  lemma OtherMessageIsNoEvent(id: string, states: CalendarStates, today: string)
    requires id in states && states[id].message != Some(EVENT_VACANCES) && states[id].message != Some(EVENT_TELETRAVAIL)
    ensures NextDayType(Some(id), states, today) == NO_EVENT
  {
  }

  /** A Vacances event starting today, "YYYY-MM-DD HH:MM:SS", is seen as Vacances. */
  lemma VacancesToday(id: string, states: CalendarStates, day: string, time: string)
    requires id != "" && id in states && ' ' !in day && day != ""
    requires states[id].startTime == Some(day + " " + time) && states[id].message == Some(EVENT_VACANCES)
    ensures NextDayType(Some(id), states, day) == EVENT_VACANCES
  {
    assert day + " " + time == day + [' '] + time;
    SplitAtSeparator(day, time, ' ');
  }
}
