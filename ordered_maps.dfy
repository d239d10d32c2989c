/**
 * Python dictionaries with string keys, in insertion order, as sequences of
 * (key, value) pairs. `Assign` is `d[k] = v`: it overwrites the value in
 * place when `k` is present and appends otherwise.
 */
module OrderedMaps {
  import opened Wrappers

  function Keys<V>(m: seq<(string, V)>): seq<string> {
    seq(|m|, i requires 0 <= i < |m| => m[i].0)
  }

  function Values<V>(m: seq<(string, V)>): seq<V> {
    seq(|m|, i requires 0 <= i < |m| => m[i].1)
  }

  predicate DistinctKeys<V>(m: seq<(string, V)>) {
    forall i, j :: 0 <= i < j < |m| ==> m[i].0 != m[j].0
  }

  /** `d.get(k)`: the value of the first entry for `k`, `None` when there is none. */
  function Get<V>(m: seq<(string, V)>, k: string): (r: Option<V>)
    ensures r.None? <==> k !in Keys(m)
    ensures r.Some? ==> (k, r.value) in m
  {
    if m == [] then None
    else if m[0].0 == k then
      assert Keys(m)[0] == k;
      Some(m[0].1)
    else
      assert Keys(m) == [m[0].0] + Keys(m[1..]);
      Get(m[1..], k)
  }

  /** `d[k] = v`. */
  function Assign<V>(m: seq<(string, V)>, k: string, v: V): seq<(string, V)> {
    if m == [] then [(k, v)]
    else if m[0].0 == k then [(k, v)] + m[1..]
    else [m[0]] + Assign(m[1..], k, v)
  }

  /** An assignment keeps the key order and appends a new key at the end. */
  lemma {:induction false} AssignKeys<V>(m: seq<(string, V)>, k: string, v: V)
    ensures Keys(Assign(m, k, v)) == if k in Keys(m) then Keys(m) else Keys(m) + [k]
  {
    if m != [] {
      assert Keys(m) == [m[0].0] + Keys(m[1..]);
      if m[0].0 != k {
        AssignKeys(m[1..], k, v);
        assert Keys(Assign(m, k, v)) == [m[0].0] + Keys(Assign(m[1..], k, v));
      } else {
        assert Keys(Assign(m, k, v)) == [k] + Keys(m[1..]);
      }
    }
  }

  /** After `d[k] = v`, `d.get(k)` is `v` and every other key reads as before. */
  lemma {:induction false} AssignGet<V>(m: seq<(string, V)>, k: string, v: V, x: string)
    ensures Get(Assign(m, k, v), x) == if x == k then Some(v) else Get(m, x)
  {
    if m != [] && m[0].0 != k {
      AssignGet(m[1..], k, v, x);
      assert Assign(m, k, v)[1..] == Assign(m[1..], k, v);
    } else if m != [] {
      assert Assign(m, k, v)[1..] == m[1..];
    }
  }

  lemma AssignDistinct<V>(m: seq<(string, V)>, k: string, v: V)
    requires DistinctKeys(m)
    ensures DistinctKeys(Assign(m, k, v))
  {
    var r := Assign(m, k, v);
    AssignKeys(m, k, v);
    assert forall i :: 0 <= i < |r| ==> r[i].0 == Keys(r)[i];
  }

  /** `d = {}` followed by `d[k] = v` for each pair in order. */
  function FromPairs<V>(ps: seq<(string, V)>): seq<(string, V)> {
    if ps == [] then [] else Assign(FromPairs(ps[..|ps| - 1]), ps[|ps| - 1].0, ps[|ps| - 1].1)
  }

  /** The value of the last pair for `k`: the one a dictionary built from `ps` keeps. */
  function LastValue<V>(ps: seq<(string, V)>, k: string): Option<V> {
    if ps == [] then None
    else if ps[|ps| - 1].0 == k then Some(ps[|ps| - 1].1)
    else LastValue(ps[..|ps| - 1], k)
  }

  /** `list(dict.fromkeys(xs))`: first occurrences, in order. */
  function Dedup(xs: seq<string>): seq<string> {
    if xs == [] then []
    else
      var d := Dedup(xs[..|xs| - 1]);
      if xs[|xs| - 1] in xs[..|xs| - 1] then d else d + [xs[|xs| - 1]]
  }

  /**
   * A dictionary built pair by pair has distinct keys, lists the keys of the
   * pairs in order of first occurrence and keeps the last value given for each.
   */
  lemma {:induction false} FromPairsSpec<V>(ps: seq<(string, V)>)
    ensures DistinctKeys(FromPairs(ps))
    ensures Keys(FromPairs(ps)) == Dedup(Keys(ps))
    ensures forall k {:trigger Get(FromPairs(ps), k)} :: Get(FromPairs(ps), k) == LastValue(ps, k)
  {
    if ps != [] {
      var init := ps[..|ps| - 1];
      var (k, v) := ps[|ps| - 1];
      FromPairsSpec(init);
      assert Keys(init) == Keys(ps)[..|ps| - 1];
      DedupMembers(Keys(init));
      AssignKeys(FromPairs(init), k, v);
      AssignDistinct(FromPairs(init), k, v);
      forall x ensures Get(FromPairs(ps), x) == LastValue(ps, x) {
        AssignGet(FromPairs(init), k, v, x);
      }
    }
  }

  lemma {:induction false} DedupMembers(xs: seq<string>)
    ensures forall x :: x in Dedup(xs) <==> x in xs
  {
    if xs != [] {
      DedupMembers(xs[..|xs| - 1]);
      assert xs == xs[..|xs| - 1] + [xs[|xs| - 1]];
    }
  }

  /** Dictionary keys, as a set, are the keys of the pairs. */
  lemma FromPairsKeys<V>(ps: seq<(string, V)>)
    ensures forall k :: k in Keys(FromPairs(ps)) <==> k in Keys(ps)
  {
    FromPairsSpec(ps);
    DedupMembers(Keys(ps));
  }

  /** Building a dictionary from pairs with distinct keys changes nothing. */
  lemma {:induction false} FromDistinctPairs<V>(ps: seq<(string, V)>)
    requires DistinctKeys(ps)
    ensures FromPairs(ps) == ps
  {
    if ps != [] {
      var init := ps[..|ps| - 1];
      FromDistinctPairs(init);
      assert ps[|ps| - 1].0 !in Keys(init);
      AssignNew(init, ps[|ps| - 1].0, ps[|ps| - 1].1);
      assert init + [ps[|ps| - 1]] == ps;
    }
  }

  lemma {:induction false} AssignNew<V>(m: seq<(string, V)>, k: string, v: V)
    requires k !in Keys(m)
    ensures Assign(m, k, v) == m + [(k, v)]
  {
    if m != [] {
      assert Keys(m) == [m[0].0] + Keys(m[1..]);
      AssignNew(m[1..], k, v);
      assert [m[0]] + (m[1..] + [(k, v)]) == m + [(k, v)];
    }
  }
}
