/** The `.key` / `['a', 'b']` segment: selects object properties by key. */
module KeySegment {
  import opened Outcomes
  import opened Values
  import opened ProjectionResults
  import opened Segments
  import PropertySets

  /** The values the projector visits: the value of each listed key the object has, in listed order. */
  function SelectedValues(keys: seq<string>, ps: PropertySet): (r: seq<Basket>)
    ensures |r| <= |keys|
    ensures (forall i | 0 <= i < |keys| :: keys[i] in ps.properties) ==>
      |r| == |keys| && forall i | 0 <= i < |keys| :: r[i] == ps.properties[keys[i]]
    ensures (forall i | 0 <= i < |keys| :: keys[i] !in ps.properties) ==> r == []
    decreases |keys|
  {
    if |keys| == 0 then []
    else
      var k := keys[|keys| - 1];
      SelectedValues(keys[..|keys| - 1], ps) + (if k in ps.properties then [ps.properties[k]] else [])
  }

  function Project(keys: seq<string>, cont: Projector, b: Basket): (r: ProjectionResult<Basket>)
    ensures !b.ObjectBasket? ==> r == EmptyResult
  {
    if b.ObjectBasket? then AddAll(SelectedValues(keys, b.properties), cont) else EmptyResult
  }

  method ProjectProperties(keys: seq<string>, ps: PropertySet, cont: Projector) returns (result: ProjectionResult<Basket>)
    ensures result == AddAll(SelectedValues(keys, ps), cont)
  {
    result := EmptyResult;
    for i := 0 to |keys|
      invariant result == AddAll(SelectedValues(keys[..i], ps), cont)
    {
      assert keys[..i + 1][..i] == keys[..i];
      var atKey := PropertySets.Get(ps, keys[i]);
      if atKey.Some? {
        var selected := SelectedValues(keys[..i], ps);
        assert SelectedValues(keys[..i + 1], ps) == selected + [atKey.value];
        assert (selected + [atKey.value])[..|selected|] == selected;
        result := Add(result, cont(atKey.value));
      } else {
        assert SelectedValues(keys[..i + 1], ps) == SelectedValues(keys[..i], ps);
      }
    }
    assert keys[..|keys|] == keys;
  }

  /** The updater's loop: each listed key the object has is replaced by the continuation applied to its current value. */
  function UpdateProperties(keys: seq<string>, ps: PropertySet, cont: Updater): PropertySet
    decreases |keys|
  {
    if |keys| == 0 then ps
    else
      var updated := UpdateProperties(keys[..|keys| - 1], ps, cont);
      var k := keys[|keys| - 1];
      if k in updated.properties then PropertySets.With(updated, k, cont(updated.properties[k])) else updated
  }

  function Update(keys: seq<string>, cont: Updater, b: Basket): (r: Basket)
    ensures !b.ObjectBasket? ==> r == b
  {
    if b.ObjectBasket? then ObjectBasket(UpdateProperties(keys, b.properties, cont)) else b
  }

  method UpdateObject(keys: seq<string>, ps: PropertySet, cont: Updater) returns (updated: PropertySet)
    ensures updated == UpdateProperties(keys, ps, cont)
  {
    updated := ps;
    for i := 0 to |keys|
      invariant updated == UpdateProperties(keys[..i], ps, cont)
    {
      assert keys[..i + 1][..i] == keys[..i];
      var atKey := PropertySets.Get(updated, keys[i]);
      if atKey.Some? {
        updated := PropertySets.With(updated, keys[i], cont(atKey.value));
      }
    }
    assert keys[..|keys|] == keys;
  }

  /**
   * The updater keeps the key order and the set of keys; a key listed n times has its value passed
   * through the continuation n times; other properties are unchanged.
   */
  lemma {:induction false} UpdatePropertiesApplies(keys: seq<string>, ps: PropertySet, cont: Updater, k: string)
    ensures UpdateProperties(keys, ps, cont).keys == ps.keys
    ensures PropertySets.Get(UpdateProperties(keys, ps, cont), k) ==
      if k in ps.properties then Some(ApplyN(cont, Count(keys, k), ps.properties[k])) else None
    ensures ValidProperties(ps) ==> ValidProperties(UpdateProperties(keys, ps, cont))
    decreases |keys|
  {
    if |keys| > 0 {
      UpdatePropertiesApplies(keys[..|keys| - 1], ps, cont, k);
      UpdatePropertiesApplies(keys[..|keys| - 1], ps, cont, keys[|keys| - 1]);
    }
  }
}
