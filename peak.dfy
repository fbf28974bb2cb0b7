/** The peak-hour selection of src/App.tsx:72-74. */
module PeakHour {

  /** `entries.reduce((a, b) => a[1] > b[1] ? a : b)`. With no initial value
      the fold starts from the first entry; because the comparison is strict,
      a later entry whose total equals the current best replaces it. */
  function Peak<K>(entries: seq<(K, nat)>): (p: (K, nat))
    requires entries != []
    ensures p in entries
    ensures forall j :: 0 <= j < |entries| ==> entries[j].1 <= p.1
    decreases |entries|
  {
    if |entries| == 1 then entries[0]
    else
      var prefix := entries[..|entries| - 1];
      var a := Peak(prefix);
      var b := entries[|entries| - 1];
      assert forall i :: 0 <= i < |prefix| ==> prefix[i] == entries[i];
      if a.1 > b.1 then a else b
  }

  /** The peak sits at a position after which every total is strictly
      smaller; the position is returned. */
  lemma {:induction false} PeakLast<K>(entries: seq<(K, nat)>) returns (k: int)
    requires entries != []
    ensures 0 <= k < |entries| && entries[k] == Peak(entries)
    ensures forall j :: k < j < |entries| ==> entries[j].1 < entries[k].1
    decreases |entries|
  {
    if |entries| == 1 {
      k := 0;
    } else {
      var prefix := entries[..|entries| - 1];
      assert forall i :: 0 <= i < |prefix| ==> prefix[i] == entries[i];
      var k0 := PeakLast(prefix);
      if Peak(prefix).1 > entries[|entries| - 1].1 {
        k := k0;
      } else {
        k := |entries| - 1;
      }
    }
  }

  /** Ties go to the later entry: of two equal totals, the second is the peak. */
  lemma TieGoesToLater<K>(x: K, y: K, n: nat)
    ensures Peak([(x, n), (y, n)]) == (y, n)
  {
    assert [(x, n), (y, n)][..1] == [(x, n)];
  }

  /** With distinct keys, the entry whose key is the peak's sits at a position
      after which every total is strictly smaller: of the keys tied for the
      maximum, the peak is the one inserted last. */
  lemma PeakPosition<K>(entries: seq<(K, nat)>, k: int)
    requires forall a, b :: 0 <= a < b < |entries| ==> entries[a].0 != entries[b].0
    requires 0 <= k < |entries| && entries[k].0 == Peak(entries).0
    ensures entries[k] == Peak(entries)
    ensures forall j :: k < j < |entries| ==> entries[j].1 < entries[k].1
  {
    var k' := PeakLast(entries);
    assert entries[k'].0 == entries[k].0;
  }
}
