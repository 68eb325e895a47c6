/**
 * The Python dictionaries of the data module (plain `dict` and
 * `defaultdict(list)` keyed by user or item index), modelled as a value:
 * the keys in insertion order, which is the order `.items()`, `.keys()` and
 * `.values()` walk them, together with the map from key to value.
 */
module OrderedDict {

  datatype Dict<V> = Dict(keys: seq<int>, m: map<int, V>) {

    /** Every key is listed exactly once, and the listed keys are the map's keys. */
    ghost predicate Valid() {
      && (forall i, j :: 0 <= i < j < |keys| ==> keys[i] != keys[j])
      && (forall k :: k in m <==> k in keys)
    }

    /** Reading `d[k]` of a `defaultdict` whose factory gives `dflt`, without the insertion. */
    function Get(k: int, dflt: V): V {
      if k in m then m[k] else dflt
    }

    /** `d[k] = v`: a new key goes to the end of the order, a known key keeps its place. */
    function Put(k: int, v: V): (d: Dict<V>)
      requires Valid()
      ensures d.Valid()
      ensures d.m == m[k := v]
      ensures d.keys == if k in keys then keys else keys + [k]
    {
      Dict(if k in keys then keys else keys + [k], m[k := v])
    }
  }

  function Empty<V>(): (d: Dict<V>)
    ensures d.Valid() && d.keys == [] && d.m == map[]
  {
    Dict([], map[])
  }

  /** The next of a list of distinct keys is not yet in a dict of the keys before it. */
  lemma FreshKey<V>(keys: seq<int>, i: nat, d: Dict<V>)
    requires i < |keys| && forall s, t :: 0 <= s < t < |keys| ==> keys[s] != keys[t]
    requires d.Valid() && d.keys == keys[..i]
    ensures keys[i] !in d.m
  {
    forall t | 0 <= t < i
      ensures keys[..i][t] != keys[i]
    {
    }
    assert keys[i] !in keys[..i];
    assert keys[i] !in d.keys;
    assert forall k :: k in d.m ==> k in d.keys;
  }
}
