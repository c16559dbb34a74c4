/** Python dictionaries: entries in the order their keys were first set. */
module OrderedDict {

  type Dict<K, V> = seq<(K, V)>

  ghost predicate KeysDistinct<K, V>(d: Dict<K, V>) {
    forall i, j | 0 <= i < j < |d| :: d[i].0 != d[j].0
  }

  ghost predicate HasKey<K, V>(d: Dict<K, V>, key: K) { exists i :: 0 <= i < |d| && d[i].0 == key }

  /** Setting a key keeps its place, or appends it. */
  function Put<K(==), V>(d: Dict<K, V>, key: K, value: V): Dict<K, V> {
    if d == [] then [(key, value)]
    else if d[0].0 == key then [(key, value)] + d[1..]
    else [d[0]] + Put(d[1..], key, value)
  }

  /** Setting entries one after another. */
  function PutAll<K(==), V>(d: Dict<K, V>, entries: seq<(K, V)>): Dict<K, V> {
    if entries == [] then d
    else Put(PutAll(d, entries[..|entries| - 1]), entries[|entries| - 1].0, entries[|entries| - 1].1)
  }

  lemma {:induction false} PutKeys<K, V>(d: Dict<K, V>, key: K, value: V)
    requires KeysDistinct(d)
    ensures KeysDistinct(Put(d, key, value))
    ensures forall k :: HasKey(Put(d, key, value), k) <==> HasKey(d, k) || k == key
    ensures |Put(d, key, value)| == |d| + if HasKey(d, key) then 0 else 1
    ensures forall i | 0 <= i < |Put(d, key, value)| ::
              Put(d, key, value)[i] == (key, value) || (i < |d| && Put(d, key, value)[i] == d[i] && d[i].0 != key)
  {
    var r := Put(d, key, value);
    if d == [] {
      assert r[0].0 == key;
    } else if d[0].0 == key {
      assert forall i | 0 <= i < |d| :: r[i].0 == d[i].0;
    } else {
      var rest := Put(d[1..], key, value);
      PutKeys(d[1..], key, value);
      assert r == [d[0]] + rest;
      forall j | 0 < j < |r|
        ensures r[j].0 != d[0].0
      {
        assert r[j] == rest[j - 1];
      }
      forall k
        ensures HasKey(r, k) <==> HasKey(d, k) || k == key
      {
        HasKeyCons(d[0], d[1..], k);
        HasKeyCons(d[0], rest, k);
      }
    }
  }

  lemma HasKeyCons<K, V>(entry: (K, V), d: Dict<K, V>, key: K)
    ensures HasKey([entry] + d, key) <==> entry.0 == key || HasKey(d, key)
    ensures d != [] ==> [d[0]] + d[1..] == d
  {
    var whole := [entry] + d;
    assert whole[0] == entry;
    if HasKey(whole, key) && entry.0 != key {
      var i :| 0 <= i < |whole| && whole[i].0 == key;
      assert d[i - 1].0 == key;
    }
    if i :| 0 <= i < |d| && d[i].0 == key {
      assert whole[i + 1].0 == key;
    }
  }

  /** Entries set one after another: exactly their keys are added, each once. */
  lemma {:induction false} PutAllKeys<K, V>(d: Dict<K, V>, entries: seq<(K, V)>)
    requires KeysDistinct(d)
    ensures KeysDistinct(PutAll(d, entries))
    ensures forall k :: HasKey(PutAll(d, entries), k) <==> HasKey(d, k) || HasKey(entries, k)
    ensures |d| <= |PutAll(d, entries)| <= |d| + |entries|
  {
    if entries != [] {
      var init, last := entries[..|entries| - 1], entries[|entries| - 1];
      PutAllKeys(d, init);
      PutKeys(PutAll(d, init), last.0, last.1);
      forall k
        ensures HasKey(entries, k) <==> HasKey(init, k) || k == last.0
      {
        HasKeySnoc(init, last, k);
        assert init + [last] == entries;
      }
    }
  }

  lemma HasKeySnoc<K, V>(d: Dict<K, V>, entry: (K, V), key: K)
    ensures HasKey(d + [entry], key) <==> HasKey(d, key) || entry.0 == key
  {
    var whole := d + [entry];
    assert whole[|d|] == entry;
    if HasKey(whole, key) && entry.0 != key {
      var i :| 0 <= i < |whole| && whole[i].0 == key;
      assert d[i].0 == key;
    }
    if i :| 0 <= i < |d| && d[i].0 == key {
      assert whole[i].0 == key;
    }
  }

  /** From nothing, every entry survives if and only if no two share a key; then they are the dictionary. */
  lemma {:induction false} PutAllFromEmpty<K, V>(entries: seq<(K, V)>)
    ensures KeysDistinct(PutAll([], entries))
    ensures |PutAll([], entries)| == |entries| <==> KeysDistinct(entries)
    ensures KeysDistinct(entries) ==> PutAll([], entries) == entries
  {
    PutAllKeys<K, V>([], entries);
    if entries != [] {
      var init, last := entries[..|entries| - 1], entries[|entries| - 1];
      PutAllFromEmpty(init);
      PutAllKeys<K, V>([], init);
      PutKeys(PutAll([], init), last.0, last.1);
      assert entries == init + [last];
      if !HasKey(init, last.0) {
        AppendsNewKey(PutAll([], init), last.0, last.1);
        assert KeysDistinct(init) ==> KeysDistinct(entries);
      } else {
        var i :| 0 <= i < |init| && init[i].0 == last.0;
        assert entries[i].0 == entries[|init|].0;
      }
    }
  }

  lemma {:induction false} AppendsNewKey<K, V>(d: Dict<K, V>, key: K, value: V)
    requires !HasKey(d, key)
    ensures Put(d, key, value) == d + [(key, value)]
  {
    if d != [] {
      assert d[0].0 != key;
      assert !HasKey(d[1..], key) by {
        HasKeyCons(d[0], d[1..], key);
      }
      AppendsNewKey(d[1..], key, value);
    }
  }
}
