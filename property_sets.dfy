/** PropertySet operations: an insertion-ordered persistent map from keys to baskets. */
module PropertySets {
  import opened Outcomes
  import opened Values

  const Empty: PropertySet := PropertySet([], map[])

  function Size(ps: PropertySet): nat {
    |ps.properties|
  }

  function Get(ps: PropertySet, key: string): (r: Option<Basket>)
    ensures r.Some? <==> key in ps.properties
    ensures r.Some? ==> r.value == ps.properties[key]
  {
    if key in ps.properties then Some(ps.properties[key]) else None
  }

  predicate ContainsKey(ps: PropertySet, key: string) {
    key in ps.properties
  }

  predicate IsEmpty(ps: PropertySet) {
    |ps.properties| == 0
  }

  /**
   * Sets a property. An existing key keeps its place in the key order and takes the new value;
   * a new key goes to the end.
   */
  function With(ps: PropertySet, key: string, value: Basket): (r: PropertySet)
    ensures Get(r, key) == Some(value)
    ensures forall k | k != key :: Get(r, k) == Get(ps, k)
    ensures key in ps.properties ==> r.keys == ps.keys
    ensures key !in ps.properties ==> r.keys == ps.keys + [key]
    ensures ValidProperties(ps) ==> ValidProperties(r)
  {
    if key in ps.properties then
      PropertySet(ps.keys, ps.properties[key := value])
    else
      PropertySet(ps.keys + [key], ps.properties[key := value])
  }

  /** The position of the first occurrence of a key. */
  function IndexOf(keys: seq<string>, key: string): (i: nat)
    requires key in keys
    ensures i < |keys| && keys[i] == key && key !in keys[..i]
  {
    if keys[0] == key then 0 else 1 + IndexOf(keys[1..], key)
  }

  /** The key vector's `minus(key)`: removes the first occurrence, if any. */
  function RemoveFirst(keys: seq<string>, key: string): (r: seq<string>)
    ensures |r| == if key in keys then |keys| - 1 else |keys|
  {
    if |keys| == 0 then []
    else if keys[0] == key then keys[1..]
    else [keys[0]] + RemoveFirst(keys[1..], key)
  }

  /** Removing a key cuts out its first occurrence and keeps everything else in order. */
  lemma RemoveFirstSplices(keys: seq<string>, key: string)
    ensures key !in keys ==> RemoveFirst(keys, key) == keys
    ensures key in keys ==> RemoveFirst(keys, key) == keys[..IndexOf(keys, key)] + keys[IndexOf(keys, key) + 1..]
  {
    if key in keys {
      RemoveFirstCuts(keys, key);
    } else {
      RemoveFirstAbsent(keys, key);
    }
  }

  lemma {:induction false} RemoveFirstAbsent(keys: seq<string>, key: string)
    requires key !in keys
    ensures RemoveFirst(keys, key) == keys
    decreases |keys|
  {
    if |keys| > 0 {
      RemoveFirstAbsent(keys[1..], key);
      assert keys == [keys[0]] + keys[1..];
    }
  }

  lemma {:induction false} RemoveFirstCuts(keys: seq<string>, key: string)
    requires key in keys
    ensures RemoveFirst(keys, key) == keys[..IndexOf(keys, key)] + keys[IndexOf(keys, key) + 1..]
    decreases |keys|
  {
    if keys[0] != key {
      assert key in keys[1..] by { assert keys == [keys[0]] + keys[1..]; }
      RemoveFirstCuts(keys[1..], key);
      var i := IndexOf(keys[1..], key);
      assert keys[..i + 1] == [keys[0]] + keys[1..][..i];
      assert keys[i + 2..] == keys[1..][i + 1..];
    }
  }

  /** Removes a property; the other keys keep their order and values. */
  function Minus(ps: PropertySet, key: string): (r: PropertySet)
    ensures Get(r, key) == None
    ensures forall k | k != key :: Get(r, k) == Get(ps, k)
    ensures ValidProperties(ps) ==> ValidProperties(r) && key !in r.keys
  {
    assert ValidProperties(ps) ==> ValidProperties(PropertySet(RemoveFirst(ps.keys, key), ps.properties - {key})) by {
      if ValidProperties(ps) {
        RemoveFirstDistinct(ps.keys, key);
      }
    }
    PropertySet(RemoveFirst(ps.keys, key), ps.properties - {key})
  }

  /** Removing a key from a list without duplicates leaves the other keys, still without duplicates. */
  lemma {:induction false} RemoveFirstDistinct(keys: seq<string>, key: string)
    requires Distinct(keys)
    ensures Distinct(RemoveFirst(keys, key))
    ensures forall x :: x in RemoveFirst(keys, key) <==> x in keys && x != key
    decreases |keys|
  {
    RemoveFirstMembers(keys, key);
    if |keys| > 0 && keys[0] != key {
      RemoveFirstDistinct(keys[1..], key);
      var tail := RemoveFirst(keys[1..], key);
      assert keys[0] !in keys[1..];
      DistinctCons(keys[0], tail);
    }
  }

  lemma {:induction false} RemoveFirstMembers(keys: seq<string>, key: string)
    requires Distinct(keys)
    ensures forall x :: x in RemoveFirst(keys, key) <==> x in keys && x != key
    decreases |keys|
  {
    if |keys| > 0 {
      assert Distinct(keys[1..]);
      RemoveFirstMembers(keys[1..], key);
      assert keys == [keys[0]] + keys[1..];
      if keys[0] == key {
        assert key !in keys[1..];
      }
    }
  }

  lemma DistinctCons(x: string, tail: seq<string>)
    requires Distinct(tail) && x !in tail
    ensures Distinct([x] + tail)
  {
    var s := [x] + tail;
    forall i, j | 0 <= i < j < |s| ensures s[i] != s[j] {
      assert s[j] == tail[j - 1];
      if i > 0 { assert s[i] == tail[i - 1]; }
    }
  }

  /**
   * The entries in key order, as the property set's iterator yields them. The iterator
   * looks each key up with `!!`; keys missing from the map (which a valid set never has)
   * are skipped here.
   */
  function Entries(ps: PropertySet): (r: seq<(string, Basket)>)
    ensures forall i | 0 <= i < |r| :: r[i].0 in ps.properties && r[i].1 == ps.properties[r[i].0]
    ensures (forall k | k in ps.keys :: k in ps.properties) ==>
      |r| == |ps.keys| && forall i | 0 <= i < |r| :: r[i].0 == ps.keys[i]
  {
    EntriesOf(ps.keys, ps.properties)
  }

  /** The value of an entry is the one stored under its key. */
  lemma EntryValue(ps: PropertySet, i: nat)
    requires i < |Entries(ps)|
    ensures Entries(ps)[i].0 in ps.properties && Entries(ps)[i].1 == ps.properties[Entries(ps)[i].0]
  {
  }

  function EntriesOf(keys: seq<string>, props: map<string, Basket>): (r: seq<(string, Basket)>)
    ensures forall i | 0 <= i < |r| :: r[i].0 in props && r[i].1 == props[r[i].0]
    ensures (forall k | k in keys :: k in props) ==>
      |r| == |keys| && forall i | 0 <= i < |r| :: r[i].0 == keys[i]
    decreases |keys|
  {
    if |keys| == 0 then []
    else
      var last := keys[|keys| - 1];
      EntriesOf(keys[..|keys| - 1], props) + (if last in props then [(last, props[last])] else [])
  }

  /** The values in key order. */
  function ValuesOf(ps: PropertySet): (r: seq<Basket>)
    ensures |r| == |Entries(ps)| && forall i | 0 <= i < |r| :: r[i] == Entries(ps)[i].1
  {
    var es := Entries(ps);
    seq(|es|, i requires 0 <= i < |es| => es[i].1)
  }

  function KeysOf(es: seq<(string, Basket)>): (r: seq<string>)
    ensures |r| == |es| && forall i | 0 <= i < |es| :: r[i] == es[i].0
  {
    seq(|es|, i requires 0 <= i < |es| => es[i].0)
  }

  /** Entries with the same keys position by position have the same key sequence. */
  lemma SameKeys(es: seq<(string, Basket)>, others: seq<(string, Basket)>)
    requires |es| == |others| && forall i | 0 <= i < |es| :: es[i].0 == others[i].0
    ensures KeysOf(es) == KeysOf(others)
  {
  }

  /** `PropertySet.of(entries)`: entries put one after another into an insertion-ordered map. */
  function OfEntries(es: seq<(string, Basket)>): (r: PropertySet)
    ensures ValidProperties(r)
    decreases |es|
  {
    if |es| == 0 then Empty
    else With(OfEntries(es[..|es| - 1]), es[|es| - 1].0, es[|es| - 1].1)
  }

  /** The loop of `PropertySet.of(entries)`. */
  method Of(es: seq<(string, Basket)>) returns (ps: PropertySet)
    ensures ps == OfEntries(es)
    ensures ValidProperties(ps)
  {
    ps := Empty;
    for i := 0 to |es|
      invariant ps == OfEntries(es[..i])
    {
      assert es[..i + 1][..i] == es[..i];
      ps := With(ps, es[i].0, es[i].1);
    }
    assert es[..|es|] == es;
  }

  /** The value of the last entry with the given key, if any. */
  function LastValue(es: seq<(string, Basket)>, key: string): Option<Basket>
    decreases |es|
  {
    if |es| == 0 then None
    else if es[|es| - 1].0 == key then Some(es[|es| - 1].1)
    else LastValue(es[..|es| - 1], key)
  }

  /** Every key of the result, with the value of the LAST entry that names it. */
  lemma {:induction false} OfEntriesLastValueWins(es: seq<(string, Basket)>, key: string)
    ensures Get(OfEntries(es), key) == LastValue(es, key)
    decreases |es|
  {
    if |es| > 0 {
      OfEntriesLastValueWins(es[..|es| - 1], key);
    }
  }

  /** Removes every occurrence of `k`. */
  function Without(ks: seq<string>, k: string): (r: seq<string>)
    ensures forall x :: x in r <==> x in ks && x != k
  {
    if |ks| == 0 then []
    else if ks[0] == k then Without(ks[1..], k)
    else [ks[0]] + Without(ks[1..], k)
  }

  /** Each key once, at the place of its FIRST occurrence. */
  function FirstOccurrences(ks: seq<string>): (r: seq<string>)
    ensures forall x :: x in r <==> x in ks
  {
    if |ks| == 0 then [] else [ks[0]] + Without(FirstOccurrences(ks[1..]), ks[0])
  }

  lemma {:induction false} WithoutAppend(ks: seq<string>, x: string, k: string)
    ensures Without(ks + [x], k) == if x == k then Without(ks, k) else Without(ks, k) + [x]
  {
    if |ks| > 0 {
      assert (ks + [x])[1..] == ks[1..] + [x];
      WithoutAppend(ks[1..], x, k);
    }
  }

  lemma {:induction false} FirstOccurrencesAppend(ks: seq<string>, k: string)
    ensures FirstOccurrences(ks + [k]) == if k in ks then FirstOccurrences(ks) else FirstOccurrences(ks) + [k]
  {
    if |ks| == 0 {
      assert ks + [k] == [k];
    } else {
      assert (ks + [k])[1..] == ks[1..] + [k];
      FirstOccurrencesAppend(ks[1..], k);
      var rest := FirstOccurrences(ks[1..]);
      if k in ks[1..] {
      } else {
        WithoutAppend(rest, k, ks[0]);
      }
    }
  }

  /** A key that appears several times keeps the position of its first appearance. */
  lemma {:induction false} OfEntriesKeyOrder(es: seq<(string, Basket)>)
    ensures OfEntries(es).keys == FirstOccurrences(KeysOf(es))
    decreases |es|
  {
    if |es| > 0 {
      var init := es[..|es| - 1];
      OfEntriesKeyOrder(init);
      KeysOfLast(es);
      FirstOccurrencesAppend(KeysOf(init), es[|es| - 1].0);
    }
  }

  lemma KeysOfLast(es: seq<(string, Basket)>)
    requires |es| > 0
    ensures KeysOf(es) == KeysOf(es[..|es| - 1]) + [es[|es| - 1].0]
  {
  }

  /** With distinct keys, `of` keeps every entry, in order. */
  /** Entries with distinct keys keep their key order. */
  lemma OfDistinctKeys(es: seq<(string, Basket)>)
    requires Distinct(KeysOf(es))
    ensures OfEntries(es).keys == KeysOf(es)
  {
    OfDistinctEntries(es);
  }

  lemma {:induction false} OfDistinctEntries(es: seq<(string, Basket)>)
    requires Distinct(KeysOf(es))
    ensures OfEntries(es).keys == KeysOf(es)
    ensures forall i | 0 <= i < |es| :: Get(OfEntries(es), es[i].0) == Some(es[i].1)
    ensures forall k | k in OfEntries(es).properties :: k in KeysOf(es)
    decreases |es|
  {
    if |es| > 0 {
      var init := es[..|es| - 1];
      var last := es[|es| - 1];
      KeysOfLast(es);
      assert Distinct(KeysOf(init)) by {
        forall i, j | 0 <= i < j < |init| ensures KeysOf(init)[i] != KeysOf(init)[j] {
          assert KeysOf(init)[i] == KeysOf(es)[i] && KeysOf(init)[j] == KeysOf(es)[j];
        }
      }
      OfDistinctEntries(init);
      var r0 := OfEntries(init);
      assert last.0 !in r0.properties by {
        forall i | 0 <= i < |init| ensures init[i].0 != last.0 {
          assert KeysOf(es)[i] == init[i].0 && KeysOf(es)[|es| - 1] == last.0;
        }
      }
      assert OfEntries(es) == With(r0, last.0, last.1);
      forall i | 0 <= i < |es| ensures Get(OfEntries(es), es[i].0) == Some(es[i].1) {
        if i < |es| - 1 {
          assert KeysOf(es)[i] != KeysOf(es)[|es| - 1];
          assert init[i] == es[i];
        }
      }
    }
  }

  /** Iterating a property set and building a new one from its entries gives it back. */
  lemma EntriesRoundTrip(ps: PropertySet)
    requires ValidProperties(ps)
    ensures OfEntries(Entries(ps)) == ps
  {
    EntriesKeys(ps);
    OfDistinctEntries(Entries(ps));
    EntriesProperties(ps);
  }

  /** The keys of a valid property set's entries are its keys, in order. */
  lemma EntriesKeys(ps: PropertySet)
    requires ValidProperties(ps)
    ensures KeysOf(Entries(ps)) == ps.keys
  {
  }

  /** Rebuilding a valid property set from its entries gives back its map. */
  lemma EntriesProperties(ps: PropertySet)
    requires ValidProperties(ps)
    ensures OfEntries(Entries(ps)).properties == ps.properties
  {
    RebuiltIncluded(ps);
    RebuiltCovers(ps);
  }

  lemma RebuiltIncluded(ps: PropertySet)
    requires ValidProperties(ps)
    ensures var m := OfEntries(Entries(ps)).properties;
      forall k | k in m :: k in ps.properties && m[k] == ps.properties[k]
  {
    forall k | k in OfEntries(Entries(ps)).properties
      ensures k in ps.properties && OfEntries(Entries(ps)).properties[k] == ps.properties[k]
    {
      RebuiltProperty(ps, k);
    }
  }

  lemma RebuiltCovers(ps: PropertySet)
    requires ValidProperties(ps)
    ensures forall k | k in ps.properties :: k in OfEntries(Entries(ps)).properties
  {
    forall k | k in ps.properties
      ensures k in OfEntries(Entries(ps)).properties
    {
      RebuiltKey(ps, k);
    }
  }

  lemma RebuiltProperty(ps: PropertySet, k: string)
    requires ValidProperties(ps) && k in OfEntries(Entries(ps)).properties
    ensures k in ps.properties && OfEntries(Entries(ps)).properties[k] == ps.properties[k]
  {
    var es := Entries(ps);
    EntriesKeys(ps);
    OfDistinctEntries(es);
    var i :| 0 <= i < |es| && es[i].0 == k;
    assert Get(OfEntries(es), k) == Some(es[i].1);
  }

  lemma RebuiltKey(ps: PropertySet, k: string)
    requires ValidProperties(ps) && k in ps.properties
    ensures k in OfEntries(Entries(ps)).properties
  {
    var es := Entries(ps);
    EntriesKeys(ps);
    OfDistinctEntries(es);
    var i :| 0 <= i < |ps.keys| && ps.keys[i] == k;
    assert Get(OfEntries(es), es[i].0) == Some(es[i].1);
  }

  /** The entries with each value passed through `f`. */
  function MapEntryValues(es: seq<(string, Basket)>, f: (string, Basket) -> Basket): (r: seq<(string, Basket)>)
    ensures |r| == |es|
    ensures forall i | 0 <= i < |es| :: r[i] == (es[i].0, f(es[i].0, es[i].1))
  {
    seq(|es|, i requires 0 <= i < |es| => (es[i].0, f(es[i].0, es[i].1)))
  }

  /**
   * Rebuilding a property set from its entries with values replaced keeps the key order
   * and puts the new value under each key.
   */
  lemma MappedKeys(ps: PropertySet, f: (string, Basket) -> Basket)
    requires ValidProperties(ps)
    ensures KeysOf(MapEntryValues(Entries(ps), f)) == ps.keys
  {
  }

  lemma OfMappedEntries(ps: PropertySet, f: (string, Basket) -> Basket)
    requires ValidProperties(ps)
    ensures OfEntries(MapEntryValues(Entries(ps), f)).keys == ps.keys
    ensures forall k | k in ps.properties ::
      Get(OfEntries(MapEntryValues(Entries(ps), f)), k) == Some(f(k, ps.properties[k]))
  {
    MappedKeys(ps, f);
    OfDistinctEntries(MapEntryValues(Entries(ps), f));
    forall k | k in ps.properties
      ensures Get(OfEntries(MapEntryValues(Entries(ps), f)), k) == Some(f(k, ps.properties[k]))
    {
      MappedEntryAt(ps, f, k);
    }
  }

  lemma MappedEntryAt(ps: PropertySet, f: (string, Basket) -> Basket, k: string)
    requires ValidProperties(ps) && k in ps.properties
    ensures Get(OfEntries(MapEntryValues(Entries(ps), f)), k) == Some(f(k, ps.properties[k]))
  {
    var es := MapEntryValues(Entries(ps), f);
    MappedKeys(ps, f);
    OfDistinctEntries(es);
    var i :| 0 <= i < |ps.keys| && ps.keys[i] == k;
    assert es[i].0 == k;
  }

  /** `mapValues`: every entry's value mapped, and the set rebuilt through `of`. */
  function MapValues(ps: PropertySet, f: Basket -> Basket): (r: PropertySet)
    ensures ValidProperties(r)
  {
    OfEntries(MapEntryValues(Entries(ps), (k: string, v: Basket) => f(v)))
  }

  /** On a valid set, `mapValues` keeps the keys in order and maps the value under each. */
  lemma MapValuesKeepsKeys(ps: PropertySet, f: Basket -> Basket)
    requires ValidProperties(ps)
    ensures MapValues(ps, f).keys == ps.keys
    ensures forall k | k in ps.properties :: Get(MapValues(ps, f), k) == Some(f(ps.properties[k]))
  {
    OfMappedEntries(ps, (k: string, v: Basket) => f(v));
  }
}
