/**
 * The two "Key:Value, Key:Value" parsers of the HomeShift coordinator: the
 * event-to-day-mode map (keys lower-cased) and the thermostat map
 * (internal key to display text, order kept).
 */
module ModeMaps {
  import opened Wrappers
  import opened Strings
  import opened OrderedMaps

  /** The (key, value) a comma-separated piece declares: stripped, cut at the first ':', both sides stripped. */
  function ParsePair(piece: string): Option<(string, string)> {
    var p := Strip(piece);
    if ':' in p then
      var kv := SplitFirst(p, ':');
      Some((Strip(kv.0), Strip(kv.1)))
    else None
  }

  /** What one piece contributes: its pair, unless a side is empty; the key lower-cased for the event map. */
  function Entry(piece: string, lowerKeys: bool): seq<(string, string)> {
    var p := ParsePair(piece);
    if p.Some? && p.value.0 != "" && p.value.1 != "" then
      [(if lowerKeys then Lower(p.value.0) else p.value.0, p.value.1)]
    else []
  }

  /** The shape of a kept entry. */
  predicate WellFormedEntry(e: (string, string), lowerKeys: bool) {
    e.0 != "" && e.1 != "" && Stripped(e.1) && (lowerKeys ==> Lower(e.0) == e.0) && (!lowerKeys ==> Stripped(e.0))
  }

  lemma EntryWellFormed(piece: string, lowerKeys: bool)
    ensures forall e :: e in Entry(piece, lowerKeys) ==> WellFormedEntry(e, lowerKeys)
  {
    var p := ParsePair(piece);
    if p.Some? {
      var kv := SplitFirst(Strip(piece), ':');
      StripIsStripped(kv.0);
      StripIsStripped(kv.1);
      LowerIdempotent(p.value.0);
    }
  }

  /** The entries of the pieces, in order. */
  function Entries(pieces: seq<string>, lowerKeys: bool): seq<(string, string)> {
    if pieces == [] then []
    else Entries(pieces[..|pieces| - 1], lowerKeys) + Entry(pieces[|pieces| - 1], lowerKeys)
  }

  /** Pieces that each contribute exactly one given pair contribute those pairs, in order. */
  lemma {:induction false} EntriesSingletons(pieces: seq<string>, ps: seq<(string, string)>, lowerKeys: bool)
    requires |pieces| == |ps|
    requires forall i {:trigger Entry(pieces[i], lowerKeys)} :: 0 <= i < |ps| ==> Entry(pieces[i], lowerKeys) == [ps[i]]
    ensures Entries(pieces, lowerKeys) == ps
  {
    if ps != [] {
      var n := |ps| - 1;
      forall i | 0 <= i < n ensures Entry(pieces[..n][i], lowerKeys) == [ps[..n][i]] {
        assert pieces[..n][i] == pieces[i] && ps[..n][i] == ps[i];
      }
      EntriesSingletons(pieces[..n], ps[..n], lowerKeys);
      assert Entries(pieces, lowerKeys) == Entries(pieces[..n], lowerKeys) + Entry(pieces[n], lowerKeys);
      SnocLast(ps);
    }
  }

  lemma SnocLast<T>(s: seq<T>)
    requires s != []
    ensures s[..|s| - 1] + [s[|s| - 1]] == s
  {
  }

  /** The dictionary either parser returns for `raw`. */
  function ModeMapOf(raw: string, lowerKeys: bool): seq<(string, string)> {
    if raw == "" then [] else FromPairs(Entries(Split(raw, ','), lowerKeys))
  }

  function EventModeMapOf(raw: string): seq<(string, string)> {
    ModeMapOf(raw, true)
  }

  function ThermostatModeMapOf(raw: string): seq<(string, string)> {
    ModeMapOf(raw, false)
  }

  lemma EntriesSnoc(pieces: seq<string>, i: nat, lowerKeys: bool)
    requires i < |pieces|
    ensures Entries(pieces[..i + 1], lowerKeys) == Entries(pieces[..i], lowerKeys) + Entry(pieces[i], lowerKeys)
  {
    assert pieces[..i + 1][..i] == pieces[..i];
  }

  lemma FromPairsSnoc(ps: seq<(string, string)>, extra: seq<(string, string)>)
    requires |extra| <= 1
    ensures FromPairs(ps + extra) == if extra == [] then FromPairs(ps) else Assign(FromPairs(ps), extra[0].0, extra[0].1)
  {
    if extra == [] {
      assert ps + extra == ps;
    } else {
      assert (ps + extra)[..|ps + extra| - 1] == ps;
    }
  }

  /** The shared loop of both parsers. */
  method ParseModeMap(raw: string, lowerKeys: bool) returns (m: seq<(string, string)>)
    ensures m == ModeMapOf(raw, lowerKeys)
  {
    m := [];
    if raw == "" {
      return;
    }
    var pieces := Split(raw, ',');
    for i := 0 to |pieces|
      invariant m == FromPairs(Entries(pieces[..i], lowerKeys))
    {
      EntriesSnoc(pieces, i, lowerKeys);
      FromPairsSnoc(Entries(pieces[..i], lowerKeys), Entry(pieces[i], lowerKeys));
      var pair := Strip(pieces[i]);
      if ':' in pair {
        var kv := SplitFirst(pair, ':');
        var key := Strip(kv.0);
        var value := Strip(kv.1);
        assert ParsePair(pieces[i]) == Some((key, value));
        if key != "" && value != "" {
          m := Assign(m, if lowerKeys then Lower(key) else key, value);
        }
      } else {
        assert Entry(pieces[i], lowerKeys) == [];
      }
    }
    assert pieces[..|pieces|] == pieces;
  }

  /** `parse_event_mode_map`. */
  method ParseEventModeMap(raw: string) returns (m: seq<(string, string)>)
    ensures m == EventModeMapOf(raw)
  {
    m := ParseModeMap(raw, true);
  }

  /** `parse_thermostat_mode_map`. */
  method ParseThermostatModeMap(raw: string) returns (m: seq<(string, string)>)
    ensures m == ThermostatModeMapOf(raw)
  {
    m := ParseModeMap(raw, false);
  }

  /** Every entry the parser keeps has a non-empty key and value, both stripped; event keys are lower case. */
  lemma {:induction false} EntriesWellFormed(pieces: seq<string>, lowerKeys: bool)
    ensures forall e :: e in Entries(pieces, lowerKeys) ==> WellFormedEntry(e, lowerKeys)
  {
    if pieces != [] {
      EntriesWellFormed(pieces[..|pieces| - 1], lowerKeys);
      EntryWellFormed(pieces[|pieces| - 1], lowerKeys);
    }
  }

  /** The dictionary holds exactly the keys of the kept entries, each with the last value given for it. */
  lemma ModeMapSpec(raw: string, lowerKeys: bool)
    ensures DistinctKeys(ModeMapOf(raw, lowerKeys))
    ensures raw == "" ==> ModeMapOf(raw, lowerKeys) == []
    ensures raw != "" ==> forall k :: Get(ModeMapOf(raw, lowerKeys), k) == LastValue(Entries(Split(raw, ','), lowerKeys), k)
    ensures forall e :: e in ModeMapOf(raw, lowerKeys) ==> WellFormedEntry(e, lowerKeys)
  {
    if raw != "" {
      var es := Entries(Split(raw, ','), lowerKeys);
      FromPairsSpec(es);
      EntriesWellFormed(Split(raw, ','), lowerKeys);
      forall e | e in FromPairs(es) ensures e in es {
        FromPairsMembers(es, e);
      }
    }
  }

  /** Every entry of a dictionary built from pairs is one of the pairs. */
  lemma {:induction false} FromPairsMembers(ps: seq<(string, string)>, e: (string, string))
    requires e in FromPairs(ps)
    ensures e in ps
  {
    var init := ps[..|ps| - 1];
    var last := ps[|ps| - 1];
    AssignMembers(FromPairs(init), last.0, last.1, e);
    if e != last {
      FromPairsMembers(init, e);
    }
  }

  lemma {:induction false} AssignMembers(m: seq<(string, string)>, k: string, v: string, e: (string, string))
    requires e in Assign(m, k, v)
    ensures e == (k, v) || e in m
  {
    if m != [] && m[0].0 != k && e != m[0] {
      AssignMembers(m[1..], k, v, e);
    }
  }

  // ---- round trip ----

  /** A map the thermostat or event parser reads back unchanged when written out as "k:v, k:v". */
  predicate CleanModeMap(ps: seq<(string, string)>, lowerKeys: bool) {
    DistinctKeys(ps) &&
    forall i :: 0 <= i < |ps| ==>
      ps[i].0 != "" && ps[i].1 != "" && Stripped(ps[i].0) && Stripped(ps[i].1)
      && ',' !in ps[i].0 && ':' !in ps[i].0 && ',' !in ps[i].1
      && (lowerKeys ==> Lower(ps[i].0) == ps[i].0)
  }

  function RenderPair(p: (string, string)): string {
    p.0 + ":" + p.1
  }

  /** `[f"{k}:{v}" for k, v in m.items()]`. */
  function RenderPairs(ps: seq<(string, string)>): (r: seq<string>)
    ensures |r| == |ps| && forall i :: 0 <= i < |ps| ==> r[i] == RenderPair(ps[i])
  {
    if ps == [] then [] else [RenderPair(ps[0])] + RenderPairs(ps[1..])
  }

  /** `", ".join(f"{k}:{v}" for k, v in m.items())`. */
  function RenderModeMap(ps: seq<(string, string)>): string {
    Join(RenderPairs(ps), ", ")
  }

  /** "k:v" has white space at neither end when `k` and `v` have none; either may be empty. */
  lemma RenderedStripped(p: (string, string))
    requires Stripped(p.0) && Stripped(p.1)
    ensures Stripped(RenderPair(p))
  {
    var r := RenderPair(p);
    assert r[0] == if p.0 == "" then ':' else p.0[0];
    assert r[|r| - 1] == if p.1 == "" then ':' else p.1[|p.1| - 1];
  }

  /** Parsing a padded "k:v" gives back (k, v), empty sides included. */
  lemma ParsePairRendered(p: (string, string), pad: string)
    requires forall i :: 0 <= i < |pad| ==> IsSpace(pad[i])
    requires Stripped(p.0) && Stripped(p.1) && ':' !in p.0
    ensures ParsePair(pad + RenderPair(p)) == Some(p)
  {
    var r := RenderPair(p);
    RenderedStripped(p);
    StripSpacesThen(pad, r);
    assert r == p.0 + [':'] + p.1;
    SplitFirstOf(p.0, p.1, ':');
    StrippedStrip(p.0);
    StrippedStrip(p.1);
  }

  lemma EntryOfRendered(p: (string, string), pad: string, lowerKeys: bool)
    requires forall i :: 0 <= i < |pad| ==> IsSpace(pad[i])
    requires p.0 != "" && p.1 != "" && Stripped(p.0) && Stripped(p.1) && ':' !in p.0
    requires lowerKeys ==> Lower(p.0) == p.0
    ensures Entry(pad + RenderPair(p), lowerKeys) == [p]
  {
    ParsePairRendered(p, pad);
  }

  /** Writing a clean map out and parsing it back gives the same map, in the same order. */
  lemma ModeMapRoundTrip(ps: seq<(string, string)>, lowerKeys: bool)
    requires CleanModeMap(ps, lowerKeys)
    ensures ModeMapOf(RenderModeMap(ps), lowerKeys) == ps
  {
    var items := RenderPairs(ps);
    var raw := RenderModeMap(ps);
    if ps != [] {
      forall i | 0 <= i < |items| ensures ',' !in items[i] {
        assert items[i] == ps[i].0 + ":" + ps[i].1;
      }
            SplitJoinGlued(items, ", ");
      var pieces := Split(raw, ',');
      assert pieces[0] == items[0];
      assert |items[0]| > 0;
      assert raw != "";
      forall i | 0 <= i < |ps| ensures Entry(pieces[i], lowerKeys) == [ps[i]] {
        if i == 0 {
          EntryOfRendered(ps[0], "", lowerKeys);
          assert "" + RenderPair(ps[0]) == pieces[0];
        } else {
          EntryOfRendered(ps[i], " ", lowerKeys);
        }
      }
      EntriesSingletons(pieces, ps, lowerKeys);
      FromDistinctPairs(ps);
    }
  }
}
