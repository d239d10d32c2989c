/**
 * What the HomeShift coordinator promises across ticks and manual changes:
 * the priority of the resolver, the absence and override gates, the
 * day-scoped event type, the thermostat lookups, and the invariant every
 * operation keeps.
 */
module HomeShiftProperties {
  import opened Wrappers
  import opened Strings
  import opened OrderedMaps
  import opened Host
  import opened Schedulers
  import opened HomeShift

  // ---- the resolver ----

  /** A mapped event type decides the mode, whatever the weekday or the holiday calendar say. */
  lemma MappedEventWins(cfg: Config, todayType: string, now: Now, states: States)
    requires MappedMode(cfg, todayType).Some?
    ensures DetermineMode(cfg, todayType, now, states) == MappedMode(cfg, todayType).value
    ensures DetermineMode(cfg, todayType, now, states) in Values(cfg.eventModeMap)
  {
  }

  /** The weekend comes before the holiday calendar, which comes before the default. */
  lemma WeekendBeforeHolidayBeforeDefault(cfg: Config, todayType: string, now: Now, states: States)
    requires MappedMode(cfg, todayType).None?
    ensures IsWeekend(now) ==> DetermineMode(cfg, todayType, now, states) == cfg.modeWeekend
    ensures !IsWeekend(now) && IsHoliday(cfg, states) ==> DetermineMode(cfg, todayType, now, states) == cfg.modeHoliday
    ensures !IsWeekend(now) && !IsHoliday(cfg, states) ==> DetermineMode(cfg, todayType, now, states) == cfg.modeDefault
  {
  }

  /** "No event" and the empty type never reach the event map. */
  lemma NoEventIsNeverMapped(cfg: Config)
    ensures MappedMode(cfg, cfg.events.none).None?
    ensures MappedMode(cfg, "").None?
  {
  }

  /** An event type the map does not know resolves like "no event". */
  lemma UnknownTypeActsAsNoEvent(cfg: Config, todayType: string, now: Now, states: States)
    requires Get(cfg.eventModeMap, Lower(todayType)).None?
    ensures DetermineMode(cfg, todayType, now, states) == DetermineMode(cfg, cfg.events.none, now, states)
  {
  }

  /** Event types are looked up without regard to case. */
  lemma EventTypeCaseInsensitive(cfg: Config, a: string, b: string, now: Now, states: States)
    requires Lower(a) == Lower(b)
    requires a != "" && b != "" && a != cfg.events.none && b != cfg.events.none
    ensures DetermineMode(cfg, a, now, states) == DetermineMode(cfg, b, now, states)
  {
  }

  /**
   * With the event map {vacances: Maison}, default Travail and holiday mode
   * Maison, a weekday "Vacances" is "Maison" and a weekday without an event
   * is "Travail", or "Maison" on a holiday.
   */
  lemma VacationExample(cfg: Config, now: Now, states: States)
    requires cfg.eventModeMap == [("vacances", "Maison")] && cfg.events.none == "Aucun"
    requires cfg.modeDefault == "Travail" && cfg.modeHoliday == "Maison"
    requires !IsWeekend(now)
    ensures DetermineMode(cfg, "Vacances", now, states) == "Maison"
    ensures DetermineMode(cfg, "Aucun", now, states) == (if IsHoliday(cfg, states) then "Maison" else "Travail")
  {
    LowerAt("Vacances");
    assert forall i :: 0 <= i < 8 ==> Lower("Vacances")[i] == "vacances"[i];
    assert Lower("Vacances") == "vacances";
    assert Get(cfg.eventModeMap, "vacances") == Some("Maison");
  }

  // ---- the gates ----

  /** Without a configured calendar, or with one the host does not know, a tick does nothing. */
  lemma TickWithoutCalendar(cfg: Config, s: CoordState, now: Now, states: States)
    requires !CalendarConfigured(cfg) || cfg.calendarEntity.value !in states
    ensures Tick(cfg, s, now, states) == Outcome(s, false)
  {
  }

  /** The absence mode is never left by a tick, and a tick then issues no call. */
  lemma AbsenceHolds(cfg: Config, s: CoordState, now: Now, states: States)
    requires s.dayMode == cfg.modeAbsence
    ensures Tick(cfg, s, now, states).state.dayMode == cfg.modeAbsence
    ensures Tick(cfg, s, now, states).state.overrideUntil == s.overrideUntil
    ensures !Tick(cfg, s, now, states).refreshed
  {
  }

  /** Ticks one after the other: the final state and every call issued on the way. */
  ghost function Run(cfg: Config, s: CoordState, steps: seq<(Now, States)>): (CoordState, seq<ServiceCall>)
    decreases |steps|
  {
    if steps == [] then (s, [])
    else
      var o := Tick(cfg, s, steps[0].0, steps[0].1);
      var rest := Run(cfg, o.state, steps[1..]);
      (rest.0, CallsAfter(cfg, o, steps[0].1) + rest.1)
  }

  /** Once in the absence mode, any number of ticks keep it and issue no call. */
  lemma {:induction false} AbsenceIsSticky(cfg: Config, s: CoordState, steps: seq<(Now, States)>)
    requires s.dayMode == cfg.modeAbsence
    ensures Run(cfg, s, steps).0.dayMode == cfg.modeAbsence
    ensures Run(cfg, s, steps).0.overrideUntil == s.overrideUntil
    ensures Run(cfg, s, steps).1 == []
    decreases |steps|
  {
    if steps != [] {
      var o := Tick(cfg, s, steps[0].0, steps[0].1);
      AbsenceHolds(cfg, s, steps[0].0, steps[0].1);
      AbsenceIsSticky(cfg, o.state, steps[1..]);
    }
  }

  /** While the override holds, a tick keeps the mode and the deadline and issues no call. */
  lemma OverrideBlocksTick(cfg: Config, s: CoordState, now: Now, states: States)
    requires OverrideActive(s, now)
    ensures Tick(cfg, s, now, states).state.dayMode == s.dayMode
    ensures Tick(cfg, s, now, states).state.overrideUntil == s.overrideUntil
    ensures !Tick(cfg, s, now, states).refreshed
  {
  }

  /** Once the deadline has passed, the next tick that reads the calendar clears it. */
  lemma OverrideExpires(cfg: Config, s: CoordState, now: Now, states: States)
    requires CalendarConfigured(cfg) && cfg.calendarEntity.value in states
    requires s.dayMode != cfg.modeAbsence && !OverrideActive(s, now)
    ensures Tick(cfg, s, now, states).state.overrideUntil == None
  {
  }

  // ---- mode changes ----

  /**
   * A tick refreshes the schedulers exactly when it changes the mode, and
   * it changes it only to the resolver's answer, a non-empty configured mode.
   */
  lemma TickChangesModeOnlyToConfigured(cfg: Config, s: CoordState, now: Now, states: States)
    ensures Tick(cfg, s, now, states).refreshed <==> Tick(cfg, s, now, states).state.dayMode != s.dayMode
    ensures Tick(cfg, s, now, states).refreshed ==>
              && CalendarConfigured(cfg) && cfg.calendarEntity.value in states
              && Tick(cfg, s, now, states).state.dayMode != ""
              && Tick(cfg, s, now, states).state.dayMode in cfg.dayModes
              && Tick(cfg, s, now, states).state.dayMode
                 == DetermineMode(cfg, TickType(cfg, states[cfg.calendarEntity.value]), now, states)
  {
  }

  /** Past the gates, the mode becomes the resolver's answer when that is a configured mode. */
  lemma TickFollowsResolver(cfg: Config, s: CoordState, now: Now, states: States)
    requires CalendarConfigured(cfg) && cfg.calendarEntity.value in states
    requires s.dayMode != cfg.modeAbsence && !OverrideActive(s, now)
    ensures var m := DetermineMode(cfg, TickType(cfg, states[cfg.calendarEntity.value]), now, states);
            Tick(cfg, s, now, states).state.dayMode == if m != "" && m in cfg.dayModes then m else s.dayMode
  {
  }

  // ---- the day-scoped event type ----

  /** On a new date the day's type starts over: it is the type this tick sees. */
  lemma NewDateResetsTodayType(cfg: Config, s: CoordState, now: Now, states: States)
    requires CalendarConfigured(cfg) && cfg.calendarEntity.value in states
    requires s.todayDate != Some(now.date)
    ensures Tick(cfg, s, now, states).state.todayDate == Some(now.date)
    ensures Tick(cfg, s, now, states).state.todayType == TickType(cfg, states[cfg.calendarEntity.value])
  {
  }

  /** On the same date the day's type changes only to a type other than "no event". */
  lemma TodayTypePersists(cfg: Config, s: CoordState, now: Now, states: States)
    requires CalendarConfigured(cfg) && cfg.calendarEntity.value in states
    requires s.todayDate == Some(now.date)
    ensures var t := TickType(cfg, states[cfg.calendarEntity.value]);
            Tick(cfg, s, now, states).state.todayType == if t != cfg.events.none then t else s.todayType
  {
  }

  /** The transient event fields follow the calendar on every tick that reads it. */
  lemma CurrentEventFollowsCalendar(cfg: Config, s: CoordState, now: Now, states: States)
    requires CalendarConfigured(cfg) && cfg.calendarEntity.value in states
    ensures var cal := states[cfg.calendarEntity.value];
            && Tick(cfg, s, now, states).state.currentEvent == (if HasEvent(cal) then Some(cal.message) else None)
            && (Tick(cfg, s, now, states).state.eventPeriod.Some? <==> HasEvent(cal))
  {
  }

  /**
   * A morning telework event followed, the same day, by an afternoon tick
   * with no event: the day's type still shows telework, but the afternoon
   * tick decides with its own "no event" type and goes back to the
   * default mode.
   */
  lemma HalfDayRevertsToDefault(cfg: Config, s: CoordState, t1: Now, t2: Now, states1: States, states2: States)
    requires CalendarConfigured(cfg)
    requires cfg.calendarEntity.value in states1 && cfg.calendarEntity.value in states2
    requires t1.date == t2.date
    requires s.dayMode != cfg.modeAbsence && s.overrideUntil.None?
    requires TickType(cfg, states1[cfg.calendarEntity.value]) == cfg.events.telework
    requires cfg.events.telework != cfg.events.none
    requires DetermineMode(cfg, cfg.events.telework, t1, states1) != cfg.modeAbsence
    requires !HasEvent(states2[cfg.calendarEntity.value])
    requires !IsWeekend(t2) && !IsHoliday(cfg, states2)
    requires cfg.modeDefault != "" && cfg.modeDefault in cfg.dayModes
    ensures var s1 := Tick(cfg, s, t1, states1).state;
            var s2 := Tick(cfg, s1, t2, states2).state;
            && s1.todayType == cfg.events.telework
            && s2.todayType == cfg.events.telework
            && s2.currentEvent.None?
            && s2.dayMode == cfg.modeDefault
  {
    var s1 := Tick(cfg, s, t1, states1).state;
    assert s1.todayDate == Some(t1.date);
    assert s1.dayMode != cfg.modeAbsence;
    assert s1.overrideUntil.None?;
    NoEventIsNeverMapped(cfg);
  }

  // ---- manual changes ----

  /** A manual day mode is taken only if configured; it then arms the override exactly when the duration is positive. */
  lemma SetDayModeAcceptsOnlyConfigured(cfg: Config, s: CoordState, now: Now, mode: string)
    ensures SetDayModeSpec(cfg, s, now, mode).refreshed <==> mode in cfg.dayModes
    ensures mode !in cfg.dayModes ==> SetDayModeSpec(cfg, s, now, mode).state == s
    ensures mode in cfg.dayModes ==>
              && SetDayModeSpec(cfg, s, now, mode).state.dayMode == mode
              && SetDayModeSpec(cfg, s, now, mode).state.thermostatMode == s.thermostatMode
              && (SetDayModeSpec(cfg, s, now, mode).state.overrideUntil.Some? <==> s.overrideDurationMinutes > 0)
  {
  }

  /**
   * A manual change with a 60-minute override: a tick 30 minutes later
   * keeps the manual mode; the first tick 61 minutes later that reads the
   * calendar clears the deadline and resumes automatic changes.
   */
  lemma OverrideWindow(cfg: Config, s: CoordState, t0: Now, t1: Now, t2: Now, mode: string,
                       states1: States, states2: States)
    requires mode in cfg.dayModes && mode != cfg.modeAbsence
    requires s.overrideDurationMinutes == 60
    requires t1.instant == t0.instant + 30 * 60 && t2.instant == t0.instant + 61 * 60
    ensures var s0 := SetDayModeSpec(cfg, s, t0, mode).state;
            var o1 := Tick(cfg, s0, t1, states1);
            && o1.state.dayMode == mode && !o1.refreshed
            && (CalendarConfigured(cfg) && cfg.calendarEntity.value in states2 ==>
                  Tick(cfg, o1.state, t2, states2).state.overrideUntil == None)
  {
    var s0 := SetDayModeSpec(cfg, s, t0, mode).state;
    assert s0.overrideUntil == Some(t0.instant + 3600);
    OverrideBlocksTick(cfg, s0, t1, states1);
  }

  /** A later manual change, with a positive duration, sets a later deadline. */
  lemma LaterChangeLaterDeadline(cfg: Config, s: CoordState, t1: Now, t2: Now, m1: string, m2: string)
    requires m1 in cfg.dayModes && m2 in cfg.dayModes
    requires s.overrideDurationMinutes > 0 && t1.instant < t2.instant
    ensures var s1 := SetDayModeSpec(cfg, s, t1, m1).state;
            var s2 := SetDayModeSpec(cfg, s1, t2, m2).state;
            s1.overrideUntil.Some? && s2.overrideUntil.Some? && s1.overrideUntil.value < s2.overrideUntil.value
  {
  }

  /** The thermostat setter changes only the thermostat mode: never the day mode or the override. */
  lemma ThermostatSetterLeavesDayAlone(cfg: Config, s: CoordState, mode: string)
    ensures var o := SetThermostatModeSpec(cfg, s, mode);
            && o.state.(thermostatMode := s.thermostatMode) == s
            && (o.refreshed ==> o.state.thermostatMode in ThermostatModes(cfg.thermostatMap))
            && (!o.refreshed ==> o.state == s)
  {
  }

  // ---- thermostat lookups ----

  /** Keys are distinct ignoring case, display values are distinct, and no key is another entry's display. */
  predicate UnambiguousThermostatMap(m: seq<(string, string)>) {
    && (forall i, j :: 0 <= i < |m| && 0 <= j < |m| && Lower(m[i].0) == Lower(m[j].0) ==> i == j)
    && (forall i, j :: 0 <= i < |m| && 0 <= j < |m| && m[i].1 == m[j].1 ==> i == j)
    && (forall i, j :: 0 <= i < |m| && 0 <= j < |m| && m[i].0 == m[j].1 ==> i == j)
  }

  /** A display value resolves to itself, and its key resolves back to it. */
  lemma DisplayKeyRoundTrip(m: seq<(string, string)>, display: string)
    requires UnambiguousThermostatMap(m)
    requires display in ThermostatModes(m)
    ensures ResolveThermostatDisplay(m, display) == Some(display)
    ensures KeyOfDisplay(m, display).Some?
    ensures ResolveThermostatDisplay(m, KeyOfDisplay(m, display).value) == Some(display)
  {
    var key := KeyOfDisplay(m, display).value;
    var i :| 0 <= i < |m| && m[i] == (key, display);
    KeyResolves(m, i);
  }

  /** A key, in any case, resolves to its own display value, whose key is the key again. */
  lemma KeyDisplayRoundTrip(m: seq<(string, string)>, i: nat, mode: string)
    requires UnambiguousThermostatMap(m)
    requires i < |m| && Lower(mode) == Lower(m[i].0) && mode !in ThermostatModes(m)
    ensures ResolveThermostatDisplay(m, mode) == Some(m[i].1)
    ensures KeyOfDisplay(m, m[i].1) == Some(m[i].0)
  {
    var r := ResolveThermostatDisplay(m, mode);
    assert r.Some?;
    var j :| 0 <= j < |m| && Lower(m[j].0) == Lower(mode) && m[j].1 == r.value;
    assert j == i;
    var k := KeyOfDisplay(m, m[i].1);
    assert ThermostatModes(m)[i] == m[i].1;
    var l :| 0 <= l < |m| && m[l] == (k.value, m[i].1);
    assert l == i;
  }

  /** The key of entry `i` resolves to the display value of entry `i`. */
  lemma KeyResolves(m: seq<(string, string)>, i: nat)
    requires UnambiguousThermostatMap(m)
    requires i < |m|
    ensures ResolveThermostatDisplay(m, m[i].0) == Some(m[i].1)
  {
    var key := m[i].0;
    if key in ThermostatModes(m) {
      var j :| 0 <= j < |m| && ThermostatModes(m)[j] == key;
      assert m[i].0 == m[j].1;
    } else {
      var r := ResolveThermostatDisplay(m, key);
      var j :| 0 <= j < |m| && Lower(m[j].0) == Lower(key) && m[j].1 == r.value;
      assert j == i;
    }
  }

  /** With the default map's first two entries, a key in lower case resolves to its display value. */
  lemma ThermostatKeyExample()
    ensures ResolveThermostatDisplay([("Off", "Eteint"), ("Heating", "Chauffage")], "heating") == Some("Chauffage")
  {
    var m := [("Off", "Eteint"), ("Heating", "Chauffage")];
    assert ThermostatModes(m) == ["Eteint", "Chauffage"];
    assert "heating" !in ThermostatModes(m);
    LowerAt("heating");
    LowerAt("Heating");
    LowerAt("Off");
    assert Lower("Off") != Lower("heating") by {
      assert Lower("Off")[0] != Lower("heating")[0];
    }
    assert Lower("Heating") == Lower("heating") by {
      assert forall i :: 0 <= i < 7 ==> Lower("Heating")[i] == Lower("heating")[i];
    }
    assert m[0..] == m;
    DisplayOfKeyStep(m, 0, Lower("heating"));
    DisplayOfKeyStep(m, 1, Lower("heating"));
  }

  /** A value that is neither a display value nor a key is refused. */
  lemma ThermostatUnknownExample()
    ensures ResolveThermostatDisplay([("Off", "Eteint"), ("Heating", "Chauffage")], "boost") == None
  {
    var m := [("Off", "Eteint"), ("Heating", "Chauffage")];
    assert ThermostatModes(m) == ["Eteint", "Chauffage"];
    assert "boost" !in ThermostatModes(m);
    LowerAt("boost");
    LowerAt("Heating");
    LowerAt("Off");
    assert Lower(m[0].0)[0] != Lower("boost")[0];
    assert Lower(m[1].0)[0] != Lower("boost")[0];
    assert forall i :: 0 <= i < |m| ==> Lower(m[i].0) != Lower("boost");
  }


  // ---- scheduler refresh after a mode change ----

  /** After a tick changes the mode, every switch of the new mode is turned on, unless the thermostat-off rule takes it. */
  lemma ModeChangeTurnsOnNewMode(cfg: Config, s: CoordState, now: Now, states: States, x: string)
    requires Tick(cfg, s, now, states).refreshed
    requires cfg.schedulersPerMode != map[]
    requires x in ModeSwitches(cfg.schedulersPerMode, Tick(cfg, s, now, states).state.dayMode)
    requires !ThermostatOff(KeyOfDisplay(cfg.thermostatMap, s.thermostatMode), cfg.thermostatMap)
    ensures var calls := CallsAfter(cfg, Tick(cfg, s, now, states), states);
            exists i :: 0 <= i < |calls| && calls[i].service == TurnOn && x in calls[i].entityIds
  {
    var o := Tick(cfg, s, now, states);
    assert o.state.thermostatMode == s.thermostatMode;
    var d := SchedulerDiff(cfg.schedulersPerMode, o.state.dayMode,
                           KeyOfDisplay(cfg.thermostatMap, o.state.thermostatMode), cfg.thermostatMap, states);
    SharedSwitchStaysOn(cfg.schedulersPerMode, o.state.dayMode,
                        KeyOfDisplay(cfg.thermostatMap, o.state.thermostatMode), cfg.thermostatMap, states, x);
    CallsSwitches(d);
    var calls := CallsFor(d);
    assert CallsAfter(cfg, o, states) == calls;
    var i :| 0 <= i < |calls| && calls[i].service == TurnOn;
    assert x in Elems(calls[i].entityIds);
  }

  // ---- configuration parsing ----

  /** `int(raw or 0)` on the override setting: a missing or falsy value gives 0. */
  lemma OverrideDurationFalsy()
    ensures OverrideDurationOf(None) == 0
    ensures OverrideDurationOf(Some(Null)) == 0
    ensures OverrideDurationOf(Some(Text(""))) == 0
    ensures OverrideDurationOf(Some(Number(0))) == 0
  {
  }

  /** Text that `int()` refuses falls back to 0. */
  lemma OverrideDurationUnparsable()
    ensures OverrideDurationOf(Some(Text("abc"))) == 0
  {
    StrippedStrip("abc");
    assert !IsDigit("abc"[0]);
  }

  /** A number, even a negative one, is taken as it is: only the runtime setter clamps at 0. */
  lemma OverrideDurationNumber(s: CoordState, n: int)
    ensures OverrideDurationOf(Some(Number(n))) == n
    ensures SetOverrideDurationSpec(s, n).overrideDurationMinutes == if n < 0 then 0 else n
  {
  }

  /** `int(scan_interval)`: a value that does not parse falls back to 60 minutes. */
  lemma ScanIntervalSettings()
    ensures ScanIntervalOf(None) == 60
    ensures ScanIntervalOf(Some(Null)) == 60
    ensures ScanIntervalOf(Some(Number(5))) == 5
    ensures ScanIntervalOf(Some(Text("x"))) == 60
  {
    assert ParseInt("x").None? by {
      StrippedStrip("x");
      assert !IsDigit("x"[0]);
    }
  }
}
