/**
 * The helpers of the HomeShift configuration flow: the form's own reading
 * and rewriting of the thermostat map, the day-mode list of the form, the
 * scheduler assignments the scheduler step submits, the calendar check, and
 * the menu.
 */
module ConfigFlow {
  import opened Wrappers
  import opened Strings
  import opened OrderedMaps
  import opened ModeMaps
  import opened Host
  import opened Schedulers
  import opened HomeShift

  const CONF_CALENDAR_ENTITY := "calendar_entity"
  const CONF_HOLIDAY_CALENDAR := "holiday_calendar"
  const INVALID_CALENDAR := "invalid_calendar"
  const DISPLAY_FIELD_PREFIX := "thermostat_display_"

  // ---- `_parse_thermostat_map` ----

  /** What one piece contributes to the form's map: its pair, empty sides included. */
  function FlowEntry(piece: string): seq<(string, string)> {
    match ParsePair(piece)
    case Some(p) => [p]
    case None => []
  }

  function FlowEntries(pieces: seq<string>): seq<(string, string)> {
    if pieces == [] then []
    else FlowEntries(pieces[..|pieces| - 1]) + FlowEntry(pieces[|pieces| - 1])
  }

  /** The dictionary `_parse_thermostat_map` returns: a later duplicate key overwrites in place. */
  function FlowThermostatMapOf(text: string): seq<(string, string)> {
    FromPairs(FlowEntries(Split(text, ',')))
  }

  lemma FlowEntriesSnoc(pieces: seq<string>, i: nat)
    requires i < |pieces|
    ensures FlowEntries(pieces[..i + 1]) == FlowEntries(pieces[..i]) + FlowEntry(pieces[i])
  {
    assert pieces[..i + 1][..i] == pieces[..i];
  }

  /** `_parse_thermostat_map`. */
  method ParseThermostatMap(text: string) returns (m: seq<(string, string)>)
    ensures m == FlowThermostatMapOf(text)
  {
    m := [];
    var pieces := Split(text, ',');
    for i := 0 to |pieces|
      invariant m == FromPairs(FlowEntries(pieces[..i]))
    {
      FlowEntriesSnoc(pieces, i);
      FromPairsSnoc(FlowEntries(pieces[..i]), FlowEntry(pieces[i]));
      var pair := Strip(pieces[i]);
      if ':' in pair {
        var kv := SplitFirst(pair, ':');
        assert ParsePair(pieces[i]) == Some((Strip(kv.0), Strip(kv.1)));
        m := Assign(m, Strip(kv.0), Strip(kv.1));
      }
    }
    assert pieces[..|pieces|] == pieces;
  }

  /** An entry as the form's parser leaves it: both sides stripped, no ',' on either side, no ':' in the key. */
  predicate CleanFlowPair(p: (string, string)) {
    Stripped(p.0) && Stripped(p.1) && ',' !in p.0 && ',' !in p.1 && ':' !in p.0
  }

  predicate CleanFlowMap(ps: seq<(string, string)>) {
    DistinctKeys(ps) && forall i :: 0 <= i < |ps| ==> CleanFlowPair(ps[i])
  }

  lemma FlowEntryClean(piece: string)
    requires ',' !in piece
    ensures forall e :: e in FlowEntry(piece) ==> CleanFlowPair(e)
  {
    var p := Strip(piece);
    StripKeepsOut(piece, ',');
    if ':' in p {
      var kv := SplitFirst(p, ':');
      assert ',' !in kv.0 && ',' !in kv.1;
      StripIsStripped(kv.0);
      StripIsStripped(kv.1);
      StripKeepsOut(kv.0, ',');
      StripKeepsOut(kv.1, ',');
      StripKeepsOut(kv.0, ':');
    }
  }

  lemma {:induction false} FlowEntriesClean(pieces: seq<string>)
    requires forall i :: 0 <= i < |pieces| ==> ',' !in pieces[i]
    ensures forall e :: e in FlowEntries(pieces) ==> CleanFlowPair(e)
  {
    if pieces != [] {
      FlowEntriesClean(pieces[..|pieces| - 1]);
      FlowEntryClean(pieces[|pieces| - 1]);
    }
  }

  /** Whatever the text, the form's map has distinct keys and clean entries. */
  lemma FlowMapClean(text: string)
    ensures CleanFlowMap(FlowThermostatMapOf(text))
  {
    var pieces := Split(text, ',');
    var es := FlowEntries(pieces);
    SplitPiecesFree(text, ',');
    FlowEntriesClean(pieces);
    FromPairsSpec(es);
    forall e | e in FromPairs(es) ensures e in es {
      FromPairsMembers(es, e);
    }
  }

  /** Pieces that each contribute exactly one given pair contribute those pairs, in order. */
  lemma {:induction false} FlowEntriesSingletons(pieces: seq<string>, ps: seq<(string, string)>)
    requires |pieces| == |ps|
    requires forall i {:trigger FlowEntry(pieces[i])} :: 0 <= i < |ps| ==> FlowEntry(pieces[i]) == [ps[i]]
    ensures FlowEntries(pieces) == ps
  {
    if ps != [] {
      var n := |ps| - 1;
      forall i | 0 <= i < n ensures FlowEntry(pieces[..n][i]) == [ps[..n][i]] {
        assert pieces[..n][i] == pieces[i] && ps[..n][i] == ps[i];
      }
      FlowEntriesSingletons(pieces[..n], ps[..n]);
      assert FlowEntries(pieces) == FlowEntries(pieces[..n]) + FlowEntry(pieces[n]);
      SnocLast(ps);
    }
  }

  /** The empty text gives the empty map. */
  lemma FlowMapOfEmpty()
    ensures FlowThermostatMapOf("") == []
  {
    assert Split("", ',') == [""];
    assert FlowEntries([""]) == FlowEntries([]) + FlowEntry("");
  }

  /** Each piece of a clean map's text holds one entry, in order. */
  lemma FlowPiecesRendered(ps: seq<(string, string)>)
    requires CleanFlowMap(ps) && ps != []
    ensures |Split(RenderModeMap(ps), ',')| == |ps|
    ensures forall i :: 0 <= i < |ps| ==> FlowEntry(Split(RenderModeMap(ps), ',')[i]) == [ps[i]]
  {
    var items := RenderPairs(ps);
    forall i | 0 <= i < |items| ensures ',' !in items[i] {
      assert items[i] == ps[i].0 + ":" + ps[i].1;
    }
    SplitJoinGlued(items, ", ");
    var pieces := Split(RenderModeMap(ps), ',');
    assert pieces == [items[0]] + Prefixed(" ", items[1..]);
    forall i | 0 <= i < |ps| ensures FlowEntry(pieces[i]) == [ps[i]] {
      if i == 0 {
        ParsePairRendered(ps[0], "");
        assert "" + RenderPair(ps[0]) == pieces[0];
      } else {
        assert pieces[i] == " " + items[1..][i - 1];
        ParsePairRendered(ps[i], " ");
      }
    }
  }

  /** A clean map written as "k:v, k:v" parses back to itself, empty keys and displays included. */
  lemma FlowMapRoundTrip(ps: seq<(string, string)>)
    requires CleanFlowMap(ps)
    ensures FlowThermostatMapOf(RenderModeMap(ps)) == ps
  {
    if ps == [] {
      assert RenderModeMap(ps) == "";
      FlowMapOfEmpty();
    } else {
      FlowPiecesRendered(ps);
      FlowEntriesSingletons(Split(RenderModeMap(ps), ','), ps);
      FromDistinctPairs(ps);
    }
  }

  // ---- `_rebuild_thermostat_map` ----

  /** The form field that carries the display value of `key`. */
  function DisplayField(key: string): string {
    DISPLAY_FIELD_PREFIX + Lower(key)
  }

  /** The display fields of every key of the map. */
  function DisplayFields(current: seq<(string, string)>): set<string> {
    set i | 0 <= i < |current| :: DisplayField(current[i].0)
  }

  /**
   * The loop of `_rebuild_thermostat_map`: each key, in order, with the
   * display its field gives (the field is then popped) or else its current
   * display; and the fields left over.
   */
  function Rebuild(current: seq<(string, string)>, fields: map<string, string>): (r: (seq<(string, string)>, map<string, string>))
    ensures |r.0| == |current|
    ensures forall i :: 0 <= i < |current| ==> r.0[i].0 == current[i].0
  {
    if current == [] then ([], fields)
    else
      var f := DisplayField(current[0].0);
      var display := if f in fields then fields[f] else current[0].1;
      var rest := Rebuild(current[1..], fields - {f});
      ([(current[0].0, display)] + rest.0, rest.1)
  }

  /** Every display the rebuild writes is the key's current display or a submitted value. */
  lemma {:induction false} RebuildDisplaySources(current: seq<(string, string)>, fields: map<string, string>)
    ensures forall i :: 0 <= i < |current| ==>
              Rebuild(current, fields).0[i].1 == current[i].1 || Rebuild(current, fields).0[i].1 in fields.Values
  {
    if current != [] {
      var f := DisplayField(current[0].0);
      RebuildDisplaySources(current[1..], fields - {f});
      assert (fields - {f}).Values <= fields.Values;
      forall i | 1 <= i < |current|
        ensures Rebuild(current, fields).0[i].1 == current[i].1 || Rebuild(current, fields).0[i].1 in fields.Values
      {
        assert current[1..][i - 1] == current[i];
        assert Rebuild(current, fields).0[i] == Rebuild(current[1..], fields - {f}).0[i - 1];
      }
    }
  }

  /** One step of the rebuild: the first key takes its field's value or keeps its display, and its field is popped. */
  lemma RebuildStep(current: seq<(string, string)>, i: nat, fields: map<string, string>)
    requires i < |current|
    ensures var f := DisplayField(current[i].0);
            var display := if f in fields then fields[f] else current[i].1;
            Rebuild(current[i..], fields)
            == ([(current[i].0, display)] + Rebuild(current[i + 1..], fields - {f}).0, Rebuild(current[i + 1..], fields - {f}).1)
  {
    assert current[i..][1..] == current[i + 1..];
  }

  /** The loop invariant of the rebuild carries over one key. */
  lemma RebuildAdvance(current: seq<(string, string)>, fields0: map<string, string>, done: seq<(string, string)>,
                       i: nat, before: map<string, string>, display: string)
    requires i < |current|
    requires Rebuild(current, fields0).0 == done + Rebuild(current[i..], before).0
    requires Rebuild(current, fields0).1 == Rebuild(current[i..], before).1
    requires display == if DisplayField(current[i].0) in before then before[DisplayField(current[i].0)] else current[i].1
    ensures Rebuild(current, fields0).0
            == (done + [(current[i].0, display)]) + Rebuild(current[i + 1..], before - {DisplayField(current[i].0)}).0
    ensures Rebuild(current, fields0).1 == Rebuild(current[i + 1..], before - {DisplayField(current[i].0)}).1
  {
    RebuildStep(current, i, before);
    var tail := Rebuild(current[i + 1..], before - {DisplayField(current[i].0)}).0;
    assert done + ([(current[i].0, display)] + tail) == (done + [(current[i].0, display)]) + tail;
  }

  /** The submitted mapping form: field name to text. */
  class FormInput {
    var fields: map<string, string>

    constructor (fields0: map<string, string>)
      ensures fields == fields0
    {
      fields := fields0;
    }

    /** `user_input.pop(name, default)`. */
    method Pop(name: string, default: string) returns (value: string)
      modifies this
      ensures value == if name in old(fields) then old(fields)[name] else default
      ensures fields == old(fields) - {name}
    {
      value := if name in fields then fields[name] else default;
      fields := fields - {name};
    }
  }

  /** The stored map text, `data.get(CONF_THERMOSTAT_MODE_MAP, DEFAULT_THERMOSTAT_MODE_MAP)`. */
  function StoredMapText(raw: Option<string>): string {
    match raw
    case Some(s) => s
    case None => DEFAULT_THERMOSTAT_MODE_MAP
  }

  /** `_rebuild_thermostat_map`: the new map text, and the display fields popped from the form. */
  method RebuildThermostatMap(input: FormInput, mapText: Option<string>) returns (text: string)
    modifies input
    ensures var r := Rebuild(FlowThermostatMapOf(StoredMapText(mapText)), old(input.fields));
            text == RenderModeMap(r.0) && input.fields == r.1
  {
    var current := ParseThermostatMap(StoredMapText(mapText));
    text := RebuildFrom(input, current);
  }

  /** The rebuild of the parsed map, written out as `", ".join(pairs)`. */
  method RebuildFrom(input: FormInput, current: seq<(string, string)>) returns (text: string)
    modifies input
    ensures var r := Rebuild(current, old(input.fields));
            text == RenderModeMap(r.0) && input.fields == r.1
  {
    var pairs := RebuildItems(input, current);
    text := Join(pairs, ", ");
  }

  /** The loop of `_rebuild_thermostat_map`: one "key:display" item per key, popping its field. */
  method RebuildItems(input: FormInput, current: seq<(string, string)>) returns (items: seq<string>)
    modifies input
    ensures var r := Rebuild(current, old(input.fields));
            items == RenderPairs(r.0) && input.fields == r.1
  {
    ghost var fields0 := input.fields;
    ghost var done: seq<(string, string)> := [];
    items := [];
    assert current[0..] == current;
    for i := 0 to |current|
      invariant Rebuild(current, fields0).0 == done + Rebuild(current[i..], input.fields).0
      invariant Rebuild(current, fields0).1 == Rebuild(current[i..], input.fields).1
      invariant items == RenderPairs(done)
    {
      var key := current[i].0;
      ghost var before := input.fields;
      var display := input.Pop(DisplayField(key), current[i].1);
      RebuildAdvance(current, fields0, done, i, before, display);
      RenderPairsSnoc(done, (key, display));
      items := items + [key + ":" + display];
      done := done + [(key, display)];
    }
    assert current[|current|..] == [];
  }

  lemma RenderPairsSnoc(ps: seq<(string, string)>, p: (string, string))
    ensures RenderPairs(ps + [p]) == RenderPairs(ps) + [RenderPair(p)]
  {
  }

  /** The rebuild pops exactly the display fields of the map's keys; every other field stays as it was. */
  lemma {:induction false} RebuildPops(current: seq<(string, string)>, fields: map<string, string>)
    ensures Rebuild(current, fields).1 == fields - DisplayFields(current)
  {
    if current != [] {
      var f := DisplayField(current[0].0);
      RebuildPops(current[1..], fields - {f});
      assert DisplayFields(current) == {f} + DisplayFields(current[1..]) by {
        forall x | x in DisplayFields(current) ensures x in {f} + DisplayFields(current[1..]) {
          var i :| 0 <= i < |current| && x == DisplayField(current[i].0);
          if i > 0 {
            assert current[1..][i - 1] == current[i];
          }
        }
        forall x | x in DisplayFields(current[1..]) ensures x in DisplayFields(current) {
          var i :| 0 <= i < |current[1..]| && x == DisplayField(current[1..][i].0);
          assert current[1..][i] == current[i + 1];
        }
      }
    }
  }

  /** Keys whose display fields are distinct each take their own field, when submitted, or else keep their display. */
  lemma {:induction false} RebuildDisplays(current: seq<(string, string)>, fields: map<string, string>)
    requires forall i, j :: 0 <= i < j < |current| ==> DisplayField(current[i].0) != DisplayField(current[j].0)
    ensures forall i :: 0 <= i < |current| ==>
              Rebuild(current, fields).0[i].1
              == if DisplayField(current[i].0) in fields then fields[DisplayField(current[i].0)] else current[i].1
  {
    if current != [] {
      var f := DisplayField(current[0].0);
      var tail := current[1..];
      forall i, j | 0 <= i < j < |tail| ensures DisplayField(tail[i].0) != DisplayField(tail[j].0) {
        assert tail[i] == current[i + 1] && tail[j] == current[j + 1];
      }
      RebuildDisplays(tail, fields - {f});
      forall i | 1 <= i < |current|
        ensures Rebuild(current, fields).0[i].1
                == if DisplayField(current[i].0) in fields then fields[DisplayField(current[i].0)] else current[i].1
      {
        assert tail[i - 1] == current[i];
        assert DisplayField(current[i].0) != f;
      }
    }
  }

  /** With no display field submitted, the rebuild writes the map as it is and pops nothing. */
  lemma {:induction false} RebuildUntouched(current: seq<(string, string)>, fields: map<string, string>)
    requires forall i :: 0 <= i < |current| ==> DisplayField(current[i].0) !in fields
    ensures Rebuild(current, fields) == (current, fields)
  {
    if current != [] {
      var f := DisplayField(current[0].0);
      assert fields - {f} == fields;
      forall i | 0 <= i < |current[1..]| ensures DisplayField(current[1..][i].0) !in fields {
        assert current[1..][i] == current[i + 1];
      }
      RebuildUntouched(current[1..], fields);
      assert [(current[0].0, current[0].1)] + current[1..] == current;
    }
  }

  /** With no display field submitted, the rebuilt text parses back to the current map. */
  lemma RebuildRoundTrip(mapText: string, fields: map<string, string>)
    requires forall i :: 0 <= i < |FlowThermostatMapOf(mapText)| ==> DisplayField(FlowThermostatMapOf(mapText)[i].0) !in fields
    ensures FlowThermostatMapOf(RenderModeMap(Rebuild(FlowThermostatMapOf(mapText), fields).0)) == FlowThermostatMapOf(mapText)
  {
    var current := FlowThermostatMapOf(mapText);
    RebuildUntouched(current, fields);
    FlowMapClean(mapText);
    FlowMapRoundTrip(current);
  }

  /** Displays submitted without ',' and already stripped are read back by the next parse, keys unchanged. */
  lemma RebuildEditRoundTrip(mapText: string, fields: map<string, string>)
    requires forall f :: f in fields ==> Stripped(fields[f]) && ',' !in fields[f]
    ensures var r := Rebuild(FlowThermostatMapOf(mapText), fields).0;
            FlowThermostatMapOf(RenderModeMap(r)) == r
  {
    var current := FlowThermostatMapOf(mapText);
    var r := Rebuild(current, fields).0;
    FlowMapClean(mapText);
    RebuildDisplaySources(current, fields);
    forall i, j | 0 <= i < j < |r| ensures r[i].0 != r[j].0 {
      assert r[i].0 == current[i].0 && r[j].0 == current[j].0;
    }
    forall i | 0 <= i < |r| ensures CleanFlowPair(r[i]) {
      assert r[i].0 == current[i].0;
      if r[i].1 != current[i].1 {
        var f :| f in fields && fields[f] == r[i].1;
      }
    }
    FlowMapRoundTrip(r);
  }

  // ---- `_parse_day_modes` ----

  /** The non-empty stripped pieces, in order. */
  function KeptModes(pieces: seq<string>): (r: seq<string>)
    ensures forall i :: 0 <= i < |r| ==> r[i] != ""
    ensures forall x :: x in r <==> x != "" && x in StripAll(pieces)
  {
    if pieces == [] then []
    else
      assert StripAll(pieces) == [Strip(pieces[0])] + StripAll(pieces[1..]);
      (if Strip(pieces[0]) != "" then [Strip(pieces[0])] else []) + KeptModes(pieces[1..])
  }

  /** A single piece is kept, stripped, exactly when it is not blank. */
  lemma KeptModesOne(p: string)
    ensures KeptModes([p]) == if Strip(p) != "" then [Strip(p)] else []
  {
    assert [p][1..] == [];
  }

  /** Keeping distributes over concatenation, so the kept modes stay in input order. */
  lemma {:induction false} KeptModesAppend(a: seq<string>, b: seq<string>)
    ensures KeptModes(a + b) == KeptModes(a) + KeptModes(b)
  {
    if a == [] {
      assert a + b == b;
    } else {
      assert (a + b)[0] == a[0];
      assert (a + b)[1..] == a[1..] + b;
      KeptModesAppend(a[1..], b);
    }
  }

  /** `_parse_day_modes`: the default list when the setting is missing. */
  function FlowDayModes(raw: Option<string>): seq<string> {
    match raw
    case Some(s) => KeptModes(Split(s, ','))
    case None => DEFAULT_DAY_MODES
  }

  /** The form lists exactly the coordinator's day modes, less the empty ones. */
  lemma FlowModesAreCoordinatorModes(raw: Option<string>)
    ensures forall x :: x in FlowDayModes(raw) <==> x != "" && x in DayModesOf(raw)
  {
  }

  /** When every stripped piece is non-empty, nothing is dropped. */
  lemma {:induction false} KeptAll(pieces: seq<string>)
    requires forall i :: 0 <= i < |pieces| ==> Strip(pieces[i]) != ""
    ensures KeptModes(pieces) == StripAll(pieces)
  {
    if pieces != [] {
      KeptAll(pieces[1..]);
      assert StripAll(pieces) == [Strip(pieces[0])] + StripAll(pieces[1..]);
    }
  }

  /** A list of non-empty clean modes, joined with ", ", parses back to the same list. */
  lemma FlowDayModesRoundTrip(xs: seq<string>)
    requires |xs| >= 1 && CleanItems(xs, ',')
    requires forall i :: 0 <= i < |xs| ==> xs[i] != ""
    ensures FlowDayModes(Some(Join(xs, ", "))) == xs
  {
    var pieces := Split(Join(xs, ", "), ',');
    SplitStripJoin(xs, ", ");
    assert forall i :: 0 <= i < |pieces| ==> Strip(pieces[i]) == xs[i];
    KeptAll(pieces);
  }

  /** The default text parses to the default list. */
  lemma FlowDefaultDayModes()
    ensures FlowDayModes(Some(DefaultDayModesText())) == FlowDayModes(None)
  {
    assert CleanItems(DEFAULT_DAY_MODES, ',');
    FlowDayModesRoundTrip(DEFAULT_DAY_MODES);
  }

  // ---- `_extract_schedulers` ----

  /** A scheduler field of the form: one entity id as text, or a list of them. */
  datatype FieldValue = TextValue(text: string) | ListValue(items: seq<string>)

  /** The switch list a field gives: a text becomes a one-element list, or none when empty; a missing field gives none. */
  function SchedulerList(v: Option<FieldValue>): (r: seq<string>)
    ensures v.None? ==> r == []
    ensures v.Some? && v.value.TextValue? ==> r == if v.value.text == "" then [] else [v.value.text]
    ensures v.Some? && v.value.ListValue? ==> r == v.value.items
  {
    match v
    case None => []
    case Some(TextValue(s)) => if s != "" then [s] else []
    case Some(ListValue(xs)) => xs
  }

  function FieldOf(input: map<string, FieldValue>, name: string): Option<FieldValue> {
    if name in input then Some(input[name]) else None
  }

  /** `_extract_schedulers`: one list per configured day mode, and no other key. */
  method ExtractSchedulers(input: map<string, FieldValue>, modesText: Option<string>) returns (result: SchedulerMap)
    ensures result.Keys == Elems(FlowDayModes(modesText))
    ensures forall m :: m in result ==> result[m] == SchedulerList(FieldOf(input, m))
  {
    result := SchedulersFor(input, FlowDayModes(modesText));
  }

  /** The loop of `_extract_schedulers` over the day modes. */
  method SchedulersFor(input: map<string, FieldValue>, modes: seq<string>) returns (result: SchedulerMap)
    ensures result.Keys == Elems(modes)
    ensures forall m :: m in result ==> result[m] == SchedulerList(FieldOf(input, m))
  {
    result := map[];
    for i := 0 to |modes|
      invariant result.Keys == Elems(modes[..i])
      invariant forall m :: m in result ==> result[m] == SchedulerList(FieldOf(input, m))
    {
      var mode := modes[i];
      var value: seq<string> := [];
      if mode in input {
        match input[mode]
        case TextValue(s) =>
          value := if s != "" then [s] else [];
        case ListValue(xs) =>
          value := xs;
      }
      result := result[mode := value];
      ElemsSnoc(modes, i);
    }
    assert modes[..|modes|] == modes;
  }

  // ---- `_validate_calendars`, `_is_config_complete`, the menu ----

  /** `_validate_calendars`: an error for each given, non-empty calendar id the host does not know. */
  function ValidateCalendars(calendar: Option<string>, holiday: Option<string>, states: States): (errors: map<string, string>)
    ensures CONF_CALENDAR_ENTITY in errors <==> calendar.Some? && calendar.value != "" && calendar.value !in states
    ensures CONF_HOLIDAY_CALENDAR in errors <==> holiday.Some? && holiday.value != "" && holiday.value !in states
    ensures errors.Keys <= {CONF_CALENDAR_ENTITY, CONF_HOLIDAY_CALENDAR}
    ensures forall k :: k in errors ==> errors[k] == INVALID_CALENDAR
  {
    var calendarErrors: map<string, string> :=
      if calendar.Some? && calendar.value != "" && Lookup(states, calendar.value).None?
      then map[CONF_CALENDAR_ENTITY := INVALID_CALENDAR] else map[];
    assert CONF_CALENDAR_ENTITY != CONF_HOLIDAY_CALENDAR by { assert CONF_CALENDAR_ENTITY[0] != CONF_HOLIDAY_CALENDAR[0]; }
    if holiday.Some? && holiday.value != "" && Lookup(states, holiday.value).None?
    then calendarErrors[CONF_HOLIDAY_CALENDAR := INVALID_CALENDAR] else calendarErrors
  }

  /** `_is_config_complete`: a calendar entity is set. */
  predicate IsConfigComplete(calendar: Option<string>) {
    calendar.Some? && calendar.value != ""
  }

  /** The options of the menu step. */
  function MenuOptions(calendar: Option<string>): (r: seq<string>)
    ensures |r| >= 3 && r[..3] == ["calendars", "mapping", "schedulers"]
    ensures "finalize" in r <==> IsConfigComplete(calendar)
    ensures IsConfigComplete(calendar) ==> r[|r| - 1] == "finalize"
  {
    var base := ["calendars", "mapping", "schedulers"];
    assert "finalize" !in base by {
      assert "finalize"[0] != "calendars"[0] && "finalize"[0] != "mapping"[0] && "finalize"[0] != "schedulers"[0];
    }
    if IsConfigComplete(calendar) then base + ["finalize"] else base
  }
}
