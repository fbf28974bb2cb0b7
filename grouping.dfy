/** Grouping by key into an insertion-ordered map, the pattern both
    aggregations of src/App.tsx follow: `if (!m.has(k)) m.set(k, []);
    m.get(k)!.push(event)` for each event in turn. The reference definitions
    here say what the resulting map holds, independently of how the loop
    builds it. */
module Grouping {
  import opened SensorTypes
  import opened EventStats
  import opened OrderedMaps
  import opened Sequences

  /** Some event of `data` has key `k`. */
  ghost predicate Occurs<K>(data: seq<SensorEvent>, key: SensorEvent -> K, k: K) {
    exists i :: 0 <= i < |data| && key(data[i]) == k
  }

  /** The distinct keys of `data`, in the order each is first met. */
  function FirstSeen<K(==)>(data: seq<SensorEvent>, key: SensorEvent -> K): seq<K>
    decreases |data|
  {
    if data == [] then []
    else
      var ks := FirstSeen(data[..|data| - 1], key);
      var k := key(data[|data| - 1]);
      if k in ks then ks else ks + [k]
  }

  /** The events of `data` whose key is `k`, in their original order. */
  function Bucket<K(==)>(data: seq<SensorEvent>, key: SensorEvent -> K, k: K): seq<SensorEvent>
    decreases |data|
  {
    if data == [] then []
    else
      var rest := Bucket(data[..|data| - 1], key, k);
      if key(data[|data| - 1]) == k then rest + [data[|data| - 1]] else rest
  }

  /** Appending one event adds its key at the end if it is new, and changes nothing otherwise. */
  lemma FirstSeenSnoc<K>(data: seq<SensorEvent>, e: SensorEvent, key: SensorEvent -> K)
    ensures FirstSeen(data + [e], key) ==
      if key(e) in FirstSeen(data, key) then FirstSeen(data, key) else FirstSeen(data, key) + [key(e)]
  {
    assert (data + [e])[..|data|] == data;
  }

  /** Appending one event extends exactly the bucket of its own key. */
  lemma BucketSnoc<K>(data: seq<SensorEvent>, e: SensorEvent, key: SensorEvent -> K, k: K)
    ensures Bucket(data + [e], key, k) == if key(e) == k then Bucket(data, key, k) + [e] else Bucket(data, key, k)
  {
    assert (data + [e])[..|data|] == data;
  }

  /** The keys listed are exactly the keys that occur, each listed once. */
  lemma {:induction false} FirstSeenMembers<K>(data: seq<SensorEvent>, key: SensorEvent -> K)
    ensures forall k :: k in FirstSeen(data, key) <==> Occurs(data, key, k)
    ensures forall i, j :: 0 <= i < j < |FirstSeen(data, key)| ==> FirstSeen(data, key)[i] != FirstSeen(data, key)[j]
    decreases |data|
  {
    if data != [] {
      var d, e := data[..|data| - 1], data[|data| - 1];
      assert data == d + [e];
      FirstSeenMembers(d, key);
      FirstSeenSnoc(d, e, key);
      forall k
        ensures k in FirstSeen(data, key) <==> Occurs(data, key, k)
      {
        if Occurs(data, key, k) {
          var i :| 0 <= i < |data| && key(data[i]) == k;
          if i < |d| {
            assert key(d[i]) == k;
          }
        }
        if Occurs(d, key, k) {
          var i :| 0 <= i < |d| && key(d[i]) == k;
          assert key(data[i]) == k;
        }
        assert key(data[|d|]) == key(e);
      }
    }
  }

  /** A bucket holds exactly the events of `data` with its key, and no more of them. */
  lemma {:induction false} BucketMembers<K>(data: seq<SensorEvent>, key: SensorEvent -> K, k: K)
    ensures forall e :: e in Bucket(data, key, k) <==> e in data && key(e) == k
    ensures |Bucket(data, key, k)| <= |data|
    decreases |data|
  {
    if data != [] {
      var d, e := data[..|data| - 1], data[|data| - 1];
      assert data == d + [e];
      BucketMembers(d, key, k);
    }
  }

  /** A key is listed exactly when its bucket is non-empty. */
  lemma BucketNonEmpty<K>(data: seq<SensorEvent>, key: SensorEvent -> K, k: K)
    ensures k in FirstSeen(data, key) <==> Bucket(data, key, k) != []
  {
    FirstSeenMembers(data, key);
    BucketMembers(data, key, k);
    if Occurs(data, key, k) {
      var i :| 0 <= i < |data| && key(data[i]) == k;
      assert data[i] in Bucket(data, key, k);
    }
  }

  /** One key is listed exactly when it occurs. */
  lemma FirstSeenMember<K>(data: seq<SensorEvent>, key: SensorEvent -> K, k: K)
    ensures k in FirstSeen(data, key) <==> Occurs(data, key, k)
  {
    FirstSeenMembers(data, key);
  }

  /** Every event's key is listed, every listed key occurs, each once; no
      events, no keys. */
  lemma FirstSeenCovers<K>(data: seq<SensorEvent>, key: SensorEvent -> K)
    ensures data == [] <==> FirstSeen(data, key) == []
    ensures forall e :: e in data ==> key(e) in FirstSeen(data, key)
    ensures forall i :: 0 <= i < |FirstSeen(data, key)| ==> Occurs(data, key, FirstSeen(data, key)[i])
    ensures forall i, j :: 0 <= i < j < |FirstSeen(data, key)| ==> FirstSeen(data, key)[i] != FirstSeen(data, key)[j]
  {
    var ks := FirstSeen(data, key);
    FirstSeenMembers(data, key);
    forall e | e in data
      ensures key(e) in ks
    {
      var p :| 0 <= p < |data| && data[p] == e;
      assert key(data[p]) == key(e);
      FirstSeenMember(data, key, key(e));
    }
    forall i | 0 <= i < |ks|
      ensures Occurs(data, key, ks[i])
    {
      FirstSeenMember(data, key, ks[i]);
    }
    if data != [] {
      FirstSeenMember(data, key, key(data[0]));
    }
  }

  /** The position of the first event whose key is `k`. */
  function FirstIndex<K(==)>(data: seq<SensorEvent>, key: SensorEvent -> K, k: K): (p: nat)
    requires Occurs(data, key, k)
    ensures p < |data| && key(data[p]) == k
    ensures forall q :: 0 <= q < p ==> key(data[q]) != k
    decreases |data|
  {
    if key(data[0]) == k then 0
    else
      var i :| 0 <= i < |data| && key(data[i]) == k;
      assert key(data[1..][i - 1]) == k;
      1 + FirstIndex(data[1..], key, k)
  }

  /** An event appended after the first occurrence of `k` does not move it. */
  lemma FirstIndexSnoc<K>(d: seq<SensorEvent>, e: SensorEvent, key: SensorEvent -> K, k: K)
    requires Occurs(d, key, k)
    ensures Occurs(d + [e], key, k)
    ensures FirstIndex(d + [e], key, k) == FirstIndex(d, key, k)
  {
    var p := FirstIndex(d, key, k);
    assert (d + [e])[p] == d[p];
    var p' := FirstIndex(d + [e], key, k);
    assert forall q :: 0 <= q < p ==> (d + [e])[q] == d[q];
  }

  /** Keys come out in the order of their first occurrence in the input. */
  lemma {:induction false} FirstSeenOrder<K>(data: seq<SensorEvent>, key: SensorEvent -> K, i: int, j: int)
    requires 0 <= i < j < |FirstSeen(data, key)|
    ensures Occurs(data, key, FirstSeen(data, key)[i]) && Occurs(data, key, FirstSeen(data, key)[j])
    ensures FirstIndex(data, key, FirstSeen(data, key)[i]) < FirstIndex(data, key, FirstSeen(data, key)[j])
    decreases |data|
  {
    FirstSeenMembers(data, key);
    var d, e := data[..|data| - 1], data[|data| - 1];
    assert data == d + [e];
    FirstSeenSnoc(d, e, key);
    FirstSeenMembers(d, key);
    var ks := FirstSeen(d, key);
    assert i < |ks|;
    assert FirstSeen(data, key)[i] == ks[i] && ks[i] in ks;
    assert Occurs(d, key, ks[i]);
    FirstIndexSnoc(d, e, key, ks[i]);
    if j < |ks| {
      assert FirstSeen(data, key)[j] == ks[j] && ks[j] in ks;
      FirstSeenOrder(d, key, i, j);
      FirstIndexSnoc(d, e, key, ks[j]);
    } else {
      assert FirstSeen(data, key)[j] == key(e) && !Occurs(d, key, key(e));
      var p := FirstIndex(data, key, key(e));
      assert forall q :: 0 <= q < |d| ==> data[q] == d[q];
      assert p == |d|;
    }
  }

  /** The totals of the buckets of `ks`, added up over `ks`. */
  function KeyTotals<K(==)>(data: seq<SensorEvent>, key: SensorEvent -> K, ks: seq<K>): nat
    decreases |ks|
  {
    if ks == [] then 0
    else KeyTotals(data, key, ks[..|ks| - 1]) + Sum(Bucket(data, key, ks[|ks| - 1]))
  }

  /** One more event raises the totals of a duplicate-free key list by its count
      exactly when its key is in the list. */
  lemma {:induction false} KeyTotalsSnoc<K>(data: seq<SensorEvent>, e: SensorEvent, key: SensorEvent -> K, ks: seq<K>)
    requires forall i, j :: 0 <= i < j < |ks| ==> ks[i] != ks[j]
    ensures KeyTotals(data + [e], key, ks) ==
      KeyTotals(data, key, ks) + (if key(e) in ks then e.eventCount else 0)
    decreases |ks|
  {
    if ks != [] {
      var ks0, k := ks[..|ks| - 1], ks[|ks| - 1];
      assert ks == ks0 + [k];
      KeyTotalsSnoc(data, e, key, ks0);
      BucketSnoc(data, e, key, k);
      if key(e) == k {
        assert key(e) !in ks0;
        SumSnoc(Bucket(data, key, k), e);
      }
    }
  }

  /** A key met for the first time adds a bucket holding just that event. */
  lemma NewKeyTotals<K>(d: seq<SensorEvent>, e: SensorEvent, key: SensorEvent -> K, ks: seq<K>)
    requires forall i, j :: 0 <= i < j < |ks| ==> ks[i] != ks[j]
    requires key(e) !in ks && Bucket(d, key, key(e)) == []
    ensures KeyTotals(d + [e], key, ks + [key(e)]) == KeyTotals(d, key, ks) + e.eventCount
  {
    var ks' := ks + [key(e)];
    assert ks'[..|ks'| - 1] == ks;
    KeyTotalsSnoc(d, e, key, ks);
    BucketSnoc(d, e, key, key(e));
    assert Bucket(d + [e], key, key(e)) == [] + [e];
    SumSnoc([], e);
  }

  /** Conservation: the buckets of the distinct keys together hold the whole total. */
  lemma {:induction false} KeyTotalsConserve<K>(data: seq<SensorEvent>, key: SensorEvent -> K)
    ensures KeyTotals(data, key, FirstSeen(data, key)) == Sum(data)
    decreases |data|
  {
    if data != [] {
      var d, e := data[..|data| - 1], data[|data| - 1];
      assert data == d + [e];
      KeyTotalsConserve(d, key);
      FirstSeenSnoc(d, e, key);
      FirstSeenMembers(d, key);
      var ks := FirstSeen(d, key);
      if key(e) in ks {
        KeyTotalsSnoc(d, e, key, ks);
      } else {
        BucketNonEmpty(d, key, key(e));
        NewKeyTotals(d, e, key, ks);
      }
    }
  }

  /** `m` maps each key met in `data`, in first-seen order, to its bucket. */
  ghost predicate HoldsBuckets<K>(m: OrderedMap<K, seq<SensorEvent>>, data: seq<SensorEvent>, key: SensorEvent -> K) {
    && m.Valid()
    && m.keys == FirstSeen(data, key)
    && forall k :: k in m.values ==> m.values[k] == Bucket(data, key, k)
  }

  /** One step of the grouping loop: a new key gets an empty list first, then
      the event is appended to its key's list. */
  lemma GroupStep<K>(m: OrderedMap<K, seq<SensorEvent>>, data: seq<SensorEvent>, key: SensorEvent -> K, e: SensorEvent)
    requires HoldsBuckets(m, data, key)
    ensures var m1 := if key(e) in m.values then m else m.Set(key(e), []);
      HoldsBuckets(m1.Set(key(e), m1.values[key(e)] + [e]), data + [e], key)
  {
    var k := key(e);
    FirstSeenSnoc(data, e, key);
    if k !in m.values {
      BucketNonEmpty(data, key, k);
    }
    var m1 := if k in m.values then m else m.Set(k, []);
    var m2 := m1.Set(k, m1.values[k] + [e]);
    forall k' | k' in m2.values
      ensures m2.values[k'] == Bucket(data + [e], key, k')
    {
      BucketSnoc(data, e, key, k');
    }
  }

  /** The grouping loop: one pass over `data`, creating each key's list on
      first sight and appending the event to it. */
  method GroupBy<K(==)>(data: seq<SensorEvent>, key: SensorEvent -> K) returns (m: OrderedMap<K, seq<SensorEvent>>)
    ensures m.Valid()
    ensures m.keys == FirstSeen(data, key)
    ensures forall k :: k in m.values ==> m.values[k] == Bucket(data, key, k)
  {
    m := OrderedMap.Empty();
    var i := 0;
    while i < |data|
      invariant 0 <= i <= |data|
      invariant HoldsBuckets(m, data[..i], key)
    {
      var event := data[i];
      var k := key(event);
      ghost var before := m;
      if !m.Has(k) {
        m := m.Set(k, []);
      }
      ghost var m1 := m;
      var bucket := m.Get(k);
      assert bucket.Some?;
      m := m.Set(k, bucket.value + [event]);
      GroupStep(before, data[..i], key, event);
      assert m1 == if k in before.values then before else before.Set(k, []);
      TakeSnoc(data, i);
      i := i + 1;
    }
    TakeAll(data);
  }
}
