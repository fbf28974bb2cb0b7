/** The insertion-ordered map that JavaScript's `Map` is: `set` on a new key
    appends it to the iteration order, `set` on a known key keeps its place. */
module OrderedMaps {
  import opened SensorTypes

  datatype OrderedMap<K, V> = OrderedMap(keys: seq<K>, values: map<K, V>) {

    /** Each key once, and exactly the keys that have values. */
    ghost predicate Valid() {
      && (forall i, j :: 0 <= i < j < |keys| ==> keys[i] != keys[j])
      && (forall k :: k in values ==> k in keys)
      && (forall i :: 0 <= i < |keys| ==> keys[i] in values)
    }

    static function Empty(): (m: OrderedMap<K, V>)
      ensures m.Valid() && m.keys == [] && m.values == map[]
    {
      OrderedMap([], map[])
    }

    /** `Map.prototype.has`. */
    function Has(k: K): (b: bool)
      requires Valid()
      ensures b <==> k in keys
    {
      k in values
    }

    /** `Map.prototype.get`: `undefined` (here `None`) for a missing key. */
    function Get(k: K): (r: Option<V>)
      requires Valid()
      ensures r.Some? <==> k in keys
      ensures r.Some? ==> r.value == values[k]
    {
      if k in values then Some(values[k]) else None
    }

    /** `Map.prototype.set`. */
    function Set(k: K, v: V): (m: OrderedMap<K, V>)
      requires Valid()
      ensures m.Valid()
      ensures m.keys == if k in keys then keys else keys + [k]
      ensures m.values == values[k := v]
    {
      OrderedMap(if k in values then keys else keys + [k], values[k := v])
    }

    /** `Array.from(m.entries())`: the pairs in insertion order. */
    function Entries(): (es: seq<(K, V)>)
      requires Valid()
      ensures |es| == |keys|
      ensures forall i :: 0 <= i < |es| ==> es[i].0 == keys[i] && es[i].1 == values[keys[i]]
    {
      seq(|keys|, i requires 0 <= i < |keys| => (keys[i], values[keys[i]]))
    }
  }
}
