/** The .NET dictionary operations the core relies on, over integer keys:
    `Dictionary.Add`, the indexer, and LINQ's `ToDictionary`. */
module Dictionaries {
  import opened Wrappers

  /** `Dictionary.Add`: a key already present raises instead of overwriting; a new key is
      stored and every other key keeps its value. */
  function Add<V>(m: map<int, V>, key: int, value: V): (r: Result<map<int, V>>)
    ensures r.Ok? <==> key !in m
    ensures r.Err? ==> r.error == DuplicateKey(key)
    ensures r.Ok? ==> r.value == m[key := value]
  {
    if key in m then Err(DuplicateKey(key)) else Ok(m[key := value])
  }

  /** The indexer `m[key]`: a missing key raises. */
  function Get<V>(m: map<int, V>, key: int): (r: Result<V>)
    ensures r.Ok? <==> key in m
    ensures r.Ok? ==> r.value == m[key]
    ensures r.Err? ==> r.error == KeyNotFound(key)
  {
    if key in m then Ok(m[key]) else Err(KeyNotFound(key))
  }

  /** The keys of a sequence of key/value pairs, in order. */
  function Keys<V>(pairs: seq<(int, V)>): (ks: seq<int>)
    ensures |ks| == |pairs|
    ensures forall i :: 0 <= i < |pairs| ==> ks[i] == pairs[i].0
  {
    seq(|pairs|, i requires 0 <= i < |pairs| => pairs[i].0)
  }

  /** No key occurs twice. */
  ghost predicate Distinct(ks: seq<int>) {
    forall i, j :: 0 <= i < j < |ks| ==> ks[i] != ks[j]
  }

  /** `ToDictionary`: `Add`s the pairs in order, so it raises on the first repeated key,
      and otherwise maps every key to the value paired with it. */
  function ToDictionary<V>(pairs: seq<(int, V)>): (r: Result<map<int, V>>)
    ensures r.Err? ==> r.error.DuplicateKey?
    decreases |pairs|
  {
    if pairs == [] then Ok(map[])
    else
      var init, last := pairs[..|pairs| - 1], pairs[|pairs| - 1];
      match ToDictionary(init)
      case Err(e) => Err(e)
      case Ok(m) => Add(m, last.0, last.1)
  }

  /** `ToDictionary` raises exactly when a key repeats, naming one of the keys; otherwise its
      keys are the pairs' keys and each maps to the value paired with it. */
  lemma {:induction false} ToDictionaryMeaning<V>(pairs: seq<(int, V)>)
    ensures ToDictionary(pairs).Ok? <==> Distinct(Keys(pairs))
    ensures ToDictionary(pairs).Ok? ==> ToDictionary(pairs).value.Keys == set i | 0 <= i < |pairs| :: pairs[i].0
    ensures ToDictionary(pairs).Ok? ==> forall i :: 0 <= i < |pairs| ==> ToDictionary(pairs).value[pairs[i].0] == pairs[i].1
    ensures ToDictionary(pairs).Err? ==> ToDictionary(pairs).error.key in Keys(pairs)
    decreases |pairs|
  {
    if pairs != [] {
      var init := pairs[..|pairs| - 1];
      ToDictionaryMeaning(init);
      match ToDictionary(init)
      case Err(e) =>
        DistinctLast(pairs);
        assert Keys(init) == Keys(pairs)[..|init|];
      case Ok(m) =>
        AddLast(pairs, init, m);
    }
  }

  /** Adding the last pair to the dictionary of the others gives the dictionary of all pairs. */
  lemma AddLast<V>(pairs: seq<(int, V)>, init: seq<(int, V)>, m: map<int, V>)
    requires pairs != [] && init == pairs[..|pairs| - 1]
    requires Distinct(Keys(init))
    requires m.Keys == set i | 0 <= i < |init| :: init[i].0
    requires forall i :: 0 <= i < |init| ==> m[init[i].0] == init[i].1
    ensures Add(m, pairs[|init|].0, pairs[|init|].1).Ok? <==> Distinct(Keys(pairs))
    ensures Add(m, pairs[|init|].0, pairs[|init|].1).Ok? ==>
      && Add(m, pairs[|init|].0, pairs[|init|].1).value.Keys == (set i | 0 <= i < |pairs| :: pairs[i].0)
      && forall i :: 0 <= i < |pairs| ==> Add(m, pairs[|init|].0, pairs[|init|].1).value[pairs[i].0] == pairs[i].1
    ensures Add(m, pairs[|init|].0, pairs[|init|].1).Err? ==>
      Add(m, pairs[|init|].0, pairs[|init|].1).error.key in Keys(pairs)
  {
    var last := pairs[|init|];
    DistinctLast(pairs);
    KeySetLast(pairs, init);
    assert forall i :: 0 <= i < |init| ==> init[i] == pairs[i];
    assert Keys(pairs)[|init|] == last.0;
  }

  /** The keys are distinct exactly when those before the last are and the last key is new. */
  lemma DistinctLast<V>(pairs: seq<(int, V)>)
    requires pairs != []
    ensures Distinct(Keys(pairs)) <==>
      && Distinct(Keys(pairs[..|pairs| - 1]))
      && forall i :: 0 <= i < |pairs| - 1 ==> pairs[i].0 != pairs[|pairs| - 1].0
  {
    var ks, n := Keys(pairs), |pairs| - 1;
    assert Keys(pairs[..n]) == ks[..n];
    if Distinct(ks) {
      forall i | 0 <= i < n ensures pairs[i].0 != pairs[n].0 {
        assert ks[i] != ks[n];
      }
    }
  }

  /** The key set grows by the last key. */
  lemma KeySetLast<V>(pairs: seq<(int, V)>, init: seq<(int, V)>)
    requires pairs != [] && init == pairs[..|pairs| - 1]
    ensures (set i | 0 <= i < |pairs| :: pairs[i].0)
         == (set i | 0 <= i < |init| :: init[i].0) + {pairs[|init|].0}
  {
    forall i | 0 <= i < |init| ensures init[i] == pairs[i] {
    }
  }
}
