/**
 * The scheduler diff of the HomeShift coordinator
 * (`async_refresh_schedulers`): which scheduler switches to turn on and
 * which to turn off for the active day mode, with every thermostat-tagged
 * switch forced off while the thermostat is "Off".
 */
module Schedulers {
  import opened Wrappers
  import opened Strings
  import opened OrderedMaps
  import opened Host

  /** Internal thermostat key meaning "the thermostat is off". */
  const THERMOSTAT_OFF_KEY := "Off"

  /** `schedulers_per_mode`: each day mode to the switch entity ids assigned to it. */
  type SchedulerMap = map<string, seq<string>>

  /** `set(xs)`. */
  function Elems(xs: seq<string>): set<string> {
    set x | x in xs
  }

  /** `set(schedulers_per_mode.get(mode, []))`. */
  function ModeSwitches(spm: SchedulerMap, mode: string): set<string> {
    if mode in spm then Elems(spm[mode]) else {}
  }

  /** The switches of the modes in `ms` other than `mode`. */
  function OtherSwitches(spm: SchedulerMap, ms: set<string>, mode: string): set<string> {
    set m, x | m in ms && m in spm && m != mode && x in spm[m] :: x
  }

  /** Every switch assigned to any mode. */
  function AllSwitches(spm: SchedulerMap): set<string> {
    set m, x | m in spm && x in spm[m] :: x
  }

  /** The switch exists on the host and one of its tags is a thermostat display value. */
  predicate ThermostatTagged(states: States, id: string, tags: set<string>) {
    id in states && exists t :: t in states[id].tags && t in tags
  }

  /** The switches the thermostat-off rule forces off. */
  function ForcedOff(spm: SchedulerMap, states: States, tags: set<string>): set<string> {
    set x | x in AllSwitches(spm) && ThermostatTagged(states, x, tags)
  }

  /** The rule applies: the thermostat key is "Off" and a thermostat map is configured. */
  predicate ThermostatOff(thermostatKey: Option<string>, thermostatMap: seq<(string, string)>) {
    thermostatKey == Some(THERMOSTAT_OFF_KEY) && thermostatMap != []
  }

  datatype Diff = Diff(enable: set<string>, disable: set<string>)

  lemma AllSwitchesSplit(spm: SchedulerMap, mode: string)
    ensures AllSwitches(spm) == ModeSwitches(spm, mode) + OtherSwitches(spm, spm.Keys, mode)
  {
    forall x | x in AllSwitches(spm)
      ensures x in ModeSwitches(spm, mode) + OtherSwitches(spm, spm.Keys, mode)
    {
      var m :| m in spm && x in spm[m];
      if m != mode {
        assert x in OtherSwitches(spm, spm.Keys, mode);
      }
    }
  }

  /**
   * The sets `async_refresh_schedulers` builds. They split the assigned
   * switches between on and off; the active mode's switches stay on unless
   * the thermostat-off rule forces them off.
   */
  function SchedulerDiff(spm: SchedulerMap, mode: string, thermostatKey: Option<string>,
                         thermostatMap: seq<(string, string)>, states: States): (d: Diff)
    ensures d.enable !! d.disable
    ensures d.enable + d.disable == AllSwitches(spm)
    ensures d.enable <= ModeSwitches(spm, mode)
    ensures forall x :: x in ModeSwitches(spm, mode) && x !in d.enable ==>
              ThermostatOff(thermostatKey, thermostatMap) && ThermostatTagged(states, x, Elems(Values(thermostatMap)))
  {
    AllSwitchesSplit(spm, mode);
    var enable := ModeSwitches(spm, mode);
    var disable := OtherSwitches(spm, spm.Keys, mode) - enable;
    if ThermostatOff(thermostatKey, thermostatMap) then
      var forced := ForcedOff(spm, states, Elems(Values(thermostatMap)));
      Diff(enable - forced, disable + forced)
    else
      Diff(enable, disable)
  }

  lemma OtherSwitchesStep(spm: SchedulerMap, done: set<string>, m: string, mode: string)
    requires m in spm
    ensures OtherSwitches(spm, done + {m}, mode)
            == OtherSwitches(spm, done, mode) + (if m != mode then Elems(spm[m]) else {})
  {
  }

  lemma ElemsSnoc(xs: seq<string>, j: nat)
    requires j < |xs|
    ensures Elems(xs[..j + 1]) == Elems(xs[..j]) + {xs[j]}
  {
    assert xs[..j + 1] == xs[..j] + [xs[j]];
  }

  /** The loops of `async_refresh_schedulers` that build `to_enable` and `to_disable`. */
  method ComputeSchedulerDiff(spm: SchedulerMap, mode: string, thermostatKey: Option<string>,
                              thermostatMap: seq<(string, string)>, states: States)
    returns (toEnable: set<string>, toDisable: set<string>)
    ensures Diff(toEnable, toDisable) == SchedulerDiff(spm, mode, thermostatKey, thermostatMap, states)
  {
    toEnable := ModeSwitches(spm, mode);
    toDisable := CollectOthers(spm, mode, toEnable);
    if ThermostatOff(thermostatKey, thermostatMap) {
      var tags := Elems(Values(thermostatMap));
      var all := CollectSwitches(spm);
      toEnable, toDisable := ForceOff(all, states, tags, ForcedOff(spm, states, tags), toEnable, toDisable);
      assert all * ForcedOff(spm, states, tags) == ForcedOff(spm, states, tags);
    }
  }

  /** The first loop: every switch of another mode that is not in `enable`. */
  method CollectOthers(spm: SchedulerMap, mode: string, enable: set<string>) returns (disable: set<string>)
    ensures disable == OtherSwitches(spm, spm.Keys, mode) - enable
  {
    disable := {};
    var pending := spm.Keys;
    while pending != {}
      invariant pending <= spm.Keys
      invariant disable == OtherSwitches(spm, spm.Keys - pending, mode) - enable
      decreases |pending|
    {
      var m :| m in pending;
      ghost var done := spm.Keys - pending;
      if m != mode {
        disable := AddSwitches(spm[m], enable, disable);
      }
      OtherSwitchesStep(spm, done, m, mode);
      assert spm.Keys - (pending - {m}) == done + {m};
      pending := pending - {m};
    }
    assert spm.Keys - pending == spm.Keys;
  }

  /** `for sw in switches: if sw not in to_enable: to_disable.add(sw)`. */
  method AddSwitches(switches: seq<string>, enable: set<string>, disable0: set<string>) returns (disable: set<string>)
    ensures disable == disable0 + (Elems(switches) - enable)
  {
    disable := disable0;
    for j := 0 to |switches|
      invariant disable == disable0 + (Elems(switches[..j]) - enable)
    {
      ElemsSnoc(switches, j);
      if switches[j] !in enable {
        disable := disable + {switches[j]};
      }
    }
    assert switches[..|switches|] == switches;
  }

  /**
   * The thermostat-off loop: each switch of `all` with a thermostat tag
   * (the switches of `tagged`) moves from enable to disable.
   */
  method ForceOff(all: set<string>, states: States, tags: set<string>, ghost tagged: set<string>,
                  enable0: set<string>, disable0: set<string>)
    returns (enable: set<string>, disable: set<string>)
    requires forall x {:trigger ThermostatTagged(states, x, tags)} ::
               x in all ==> (x in tagged <==> ThermostatTagged(states, x, tags))
    ensures enable == enable0 - all * tagged
    ensures disable == disable0 + all * tagged
  {
    ghost var moved: set<string> := {};
    enable, disable := enable0, disable0;
    var rest := all;
    while rest != {}
      invariant rest <= all
      invariant moved == tagged * (all - rest)
      invariant enable == enable0 - moved && disable == disable0 + moved
      decreases |rest|
    {
      var x :| x in rest;
      var tagged_x := ThermostatTagged(states, x, tags);
      if tagged_x {
        disable := disable + {x};
        enable := enable - {x};
        moved := moved + {x};
      }
      rest := rest - {x};
    }
  }

  /** `all_switches.update(swlist)` over every mode's list. */
  method CollectSwitches(spm: SchedulerMap) returns (all: set<string>)
    ensures all == AllSwitches(spm)
  {
    all := {};
    var pending := spm.Keys;
    while pending != {}
      invariant pending <= spm.Keys
      invariant all == set m, x | m in spm.Keys - pending && x in spm[m] :: x
      decreases |pending|
    {
      var m :| m in pending;
      all := all + Elems(spm[m]);
      pending := pending - {m};
    }
  }

  datatype SwitchService = TurnOff | TurnOn

  /** `hass.services.async_call("switch", service, {"entity_id": entity_ids})`. */
  datatype ServiceCall = ServiceCall(service: SwitchService, entityIds: seq<string>)

  /** `turn_off` for the sorted disable set, then `turn_on` for the sorted enable set, each only when non-empty. */
  ghost function CallsFor(d: Diff): seq<ServiceCall> {
    (if d.disable != {} then [ServiceCall(TurnOff, SortedSeq(d.disable))] else [])
    + (if d.enable != {} then [ServiceCall(TurnOn, SortedSeq(d.enable))] else [])
  }

  /** The calls one refresh issues: none without a scheduler configuration. */
  ghost function RefreshCalls(spm: SchedulerMap, mode: string, thermostatKey: Option<string>,
                              thermostatMap: seq<(string, string)>, states: States): seq<ServiceCall>
  {
    if spm == map[] then [] else CallsFor(SchedulerDiff(spm, mode, thermostatKey, thermostatMap, states))
  }

  /** Without a scheduler configuration a refresh issues no call. */
  lemma NoConfigNoCalls(mode: string, thermostatKey: Option<string>, thermostatMap: seq<(string, string)>, states: States)
    ensures RefreshCalls(map[], mode, thermostatKey, thermostatMap, states) == []
  {
  }

  /**
   * The order of a refresh: at most one `turn_off` and then at most one
   * `turn_on`, each naming a non-empty strictly sorted list.
   */
  lemma CallsShape(d: Diff)
    ensures var calls := CallsFor(d);
      && |calls| <= 2
      && (|calls| == 2 ==> calls[0].service == TurnOff && calls[1].service == TurnOn)
      && (forall i :: 0 <= i < |calls| ==> calls[i].entityIds != [] && StrictlySorted(calls[i].entityIds))
  {
    SortedSeqSpec(d.disable);
    SortedSeqSpec(d.enable);
    if d.disable != {} {
      assert SortedSeq(d.disable) != [] by { assert |SortedSeq(d.disable)| == |d.disable|; }
    }
    if d.enable != {} {
      assert SortedSeq(d.enable) != [] by { assert |SortedSeq(d.enable)| == |d.enable|; }
    }
  }

  /**
   * The `turn_off` call names exactly the disable set and the `turn_on`
   * call exactly the enable set; a call is missing only when its set is empty.
   */
  lemma CallsSwitches(d: Diff)
    ensures var calls := CallsFor(d);
      && (forall i :: 0 <= i < |calls| && calls[i].service == TurnOff ==> Elems(calls[i].entityIds) == d.disable)
      && (forall i :: 0 <= i < |calls| && calls[i].service == TurnOn ==> Elems(calls[i].entityIds) == d.enable)
      && (d.disable != {} <==> exists i :: 0 <= i < |calls| && calls[i].service == TurnOff)
      && (d.enable != {} <==> exists i :: 0 <= i < |calls| && calls[i].service == TurnOn)
  {
    SortedSeqSpec(d.disable);
    SortedSeqSpec(d.enable);
    var calls := CallsFor(d);
    if d.disable != {} {
      assert calls[0].service == TurnOff;
    }
    if d.enable != {} {
      assert calls[|calls| - 1].service == TurnOn;
    }
  }

  /** A switch assigned to the active mode is never turned off, unless the thermostat-off rule takes it. */
  lemma SharedSwitchStaysOn(spm: SchedulerMap, mode: string, thermostatKey: Option<string>,
                            thermostatMap: seq<(string, string)>, states: States, x: string)
    requires x in ModeSwitches(spm, mode)
    requires !ThermostatOff(thermostatKey, thermostatMap) || !ThermostatTagged(states, x, Elems(Values(thermostatMap)))
    ensures x in SchedulerDiff(spm, mode, thermostatKey, thermostatMap, states).enable
    ensures x !in SchedulerDiff(spm, mode, thermostatKey, thermostatMap, states).disable
  {
  }

  /** While the thermostat is off, every assigned switch carrying a thermostat tag is turned off. */
  lemma ThermostatOffForcesOff(spm: SchedulerMap, mode: string, thermostatMap: seq<(string, string)>,
                               states: States, x: string)
    requires thermostatMap != []
    requires x in AllSwitches(spm) && ThermostatTagged(states, x, Elems(Values(thermostatMap)))
    ensures x in SchedulerDiff(spm, mode, Some(THERMOSTAT_OFF_KEY), thermostatMap, states).disable
    ensures x !in SchedulerDiff(spm, mode, Some(THERMOSTAT_OFF_KEY), thermostatMap, states).enable
  {
  }

  /** A switch of another mode, not also assigned to the active one, is turned off. */
  lemma OtherModeSwitchOff(spm: SchedulerMap, mode: string, thermostatKey: Option<string>,
                           thermostatMap: seq<(string, string)>, states: States, m: string, x: string)
    requires m in spm && m != mode && x in spm[m] && x !in ModeSwitches(spm, mode)
    ensures x in SchedulerDiff(spm, mode, thermostatKey, thermostatMap, states).disable
  {
    assert x in OtherSwitches(spm, spm.Keys, mode);
  }

  /** Modes {A: [x], B: [y, z]} with B active: y and z on, x off. */
  lemma TwoModeExample(states: States)
    ensures SchedulerDiff(map["A" := ["x"], "B" := ["y", "z"]], "B", None, [], states)
            == Diff({"y", "z"}, {"x"})
  {
    var spm := map["A" := ["x"], "B" := ["y", "z"]];
    var d := SchedulerDiff(spm, "B", None, [], states);
    assert "x" in spm["A"];
    assert "x" in OtherSwitches(spm, spm.Keys, "B");
    assert ModeSwitches(spm, "B") == {"y", "z"};
    forall x | x in OtherSwitches(spm, spm.Keys, "B") ensures x == "x" {
    }
  }
}
