/**
 * Ready-made updaters: functions from a basket to a basket. A typed updater leaves a basket of
 * any other variant as it is; the index-based array updaters can fail with an index error.
 */
module Updaters {
  import opened Outcomes
  import opened Values
  import opened Segments
  import PropertySets
  import ArrayContents
  import IndexSegment
  import KeySegment

  /** The updater that changes nothing. */
  function NoOp(): (u: Updater)
    ensures forall b: Basket :: u(b) == b
  {
    (b: Basket) => b
  }

  /** Applies `ifTrue` to the baskets the predicate accepts and `ifFalse` to the rest. */
  function Branch(test: Basket -> bool, ifTrue: Updater, ifFalse: Updater): (u: Updater)
    ensures forall b: Basket | test(b) :: u(b) == ifTrue(b)
    ensures forall b: Basket | !test(b) :: u(b) == ifFalse(b)
  {
    (b: Basket) => if test(b) then ifTrue(b) else ifFalse(b)
  }

  /** Replaces whatever it is given by `value`. */
  function ToConstant(value: Basket): (u: Updater)
    ensures forall b: Basket :: u(b) == value
  {
    (b: Basket) => value
  }

  function OfString(f: string -> string): (u: Updater)
    ensures forall b: Basket | !b.StringBasket? :: u(b) == b
    ensures forall s: string :: u(StringBasket(s)) == StringBasket(f(s))
  {
    (b: Basket) => if b.StringBasket? then StringBasket(f(b.stringValue)) else b
  }

  function OfNumber(f: Decimal -> Decimal): (u: Updater)
    ensures forall b: Basket | !b.NumberBasket? :: u(b) == b
    ensures forall n: Decimal :: u(NumberBasket(n)) == NumberBasket(f(n))
  {
    (b: Basket) => if b.NumberBasket? then NumberBasket(f(b.numberValue)) else b
  }

  /** Both boolean variants are mapped; the result is the variant for the mapped value. */
  function OfBoolean(f: bool -> bool): (u: Updater)
    ensures forall b: Basket | !(b.TrueBasket? || b.FalseBasket?) :: u(b) == b
    ensures u(TrueBasket) == (if f(true) then TrueBasket else FalseBasket)
    ensures u(FalseBasket) == (if f(false) then TrueBasket else FalseBasket)
  {
    (b: Basket) => if b.TrueBasket? || b.FalseBasket? then (if f(b.TrueBasket?) then TrueBasket else FalseBasket) else b
  }

  function OfArray(f: seq<Basket> -> seq<Basket>): (u: Updater)
    ensures forall b: Basket | !b.ArrayBasket? :: u(b) == b
    ensures forall items: seq<Basket> :: u(ArrayBasket(items)) == ArrayBasket(f(items))
  {
    (b: Basket) => if b.ArrayBasket? then ArrayBasket(f(b.contents)) else b
  }

  function OfObject(f: PropertySet -> PropertySet): (u: Updater)
    ensures forall b: Basket | !b.ObjectBasket? :: u(b) == b
    ensures forall ps: PropertySet :: u(ObjectBasket(ps)) == ObjectBasket(f(ps))
  {
    (b: Basket) => if b.ObjectBasket? then ObjectBasket(f(b.properties)) else b
  }

  /** A typed updater never changes the type of a basket. */
  lemma TypedUpdatersKeepType(fs: string -> string, fn: Decimal -> Decimal, fb: bool -> bool,
                              fa: seq<Basket> -> seq<Basket>, fo: PropertySet -> PropertySet, b: Basket)
    ensures GetType(OfString(fs)(b)) == GetType(b)
    ensures GetType(OfNumber(fn)(b)) == GetType(b)
    ensures GetType(OfBoolean(fb)(b)) == GetType(b)
    ensures GetType(OfArray(fa)(b)) == GetType(b)
    ensures GetType(OfObject(fo)(b)) == GetType(b)
  {
    if b.StringBasket? {
      assert b == StringBasket(b.stringValue);
    } else if b.NumberBasket? {
      assert b == NumberBasket(b.numberValue);
    } else if b.ArrayBasket? {
      assert b == ArrayBasket(b.contents);
    } else if b.ObjectBasket? {
      assert b == ObjectBasket(b.properties);
    }
  }

  /** Appends an item to an array. */
  function Appending(item: Basket): (u: Updater)
    ensures forall b: Basket | !b.ArrayBasket? :: u(b) == b
    ensures forall items: seq<Basket> :: u(ArrayBasket(items)) == ArrayBasket(ArrayContents.Plus(items, item))
  {
    OfArray((items: seq<Basket>) => ArrayContents.Plus(items, item))
  }

  /**
   * The index-based array updaters. Their array operation throws on a bad index, so they are
   * modelled as basket-to-result functions.
   */
  function OfArrayOrFail(f: seq<Basket> -> Result<seq<Basket>>, b: Basket): (r: Result<Basket>)
    ensures !b.ArrayBasket? ==> r == Ok(b)
    ensures b.ArrayBasket? ==> r.Ok? == f(b.contents).Ok?
    ensures b.ArrayBasket? && r.Ok? ==> r.value == ArrayBasket(f(b.contents).value)
    ensures b.ArrayBasket? && r.Err? ==> r.error == f(b.contents).error
  {
    if b.ArrayBasket? then
      var items :- f(b.contents);
      Ok(ArrayBasket(items))
    else Ok(b)
  }

  /** Inserts an item before `index` (`index == size` appends); a non-array is unchanged. */
  function Inserting(index: Int32, item: Basket, b: Basket): (r: Result<Basket>)
    ensures !b.ArrayBasket? ==> r == Ok(b)
    ensures b.ArrayBasket? ==> (r.Ok? <==> 0 <= index <= |b.contents|)
    ensures b.ArrayBasket? && r.Ok? ==> r.value.ArrayBasket? && |r.value.contents| == |b.contents| + 1
                                        && r.value.contents[index] == item
    ensures r.Err? ==> r.error == IndexOutOfBounds(index)
  {
    OfArrayOrFail(items => ArrayContents.Insert(items, index, item), b)
  }

  /** Replaces the item at `index`; a non-array is unchanged. */
  function Replacing(index: Int32, item: Basket, b: Basket): (r: Result<Basket>)
    ensures !b.ArrayBasket? ==> r == Ok(b)
    ensures b.ArrayBasket? ==> (r.Ok? <==> 0 <= index < |b.contents|)
    ensures b.ArrayBasket? && r.Ok? ==> r.value == ArrayBasket(b.contents[index := item])
    ensures r.Err? ==> r.error == IndexOutOfBounds(index)
  {
    OfArrayOrFail(items => ArrayContents.With(items, index, item), b)
  }

  /** Removes the item at `index`; a non-array is unchanged. */
  function Removing(index: Int32, b: Basket): (r: Result<Basket>)
    ensures !b.ArrayBasket? ==> r == Ok(b)
    ensures b.ArrayBasket? ==> (r.Ok? <==> 0 <= index < |b.contents|)
    ensures b.ArrayBasket? && r.Ok? ==> r.value == ArrayBasket(b.contents[..index] + b.contents[index + 1..])
    ensures r.Err? ==> r.error == IndexOutOfBounds(index)
  {
    OfArrayOrFail(items => ArrayContents.Minus(items, index), b)
  }

  /** Removing the item just inserted gives the original basket back. */
  lemma InsertingThenRemoving(index: Int32, item: Basket, b: Basket)
    requires Inserting(index, item, b).Ok?
    ensures Removing(index, Inserting(index, item, b).value) == Ok(b)
  {
    if b.ArrayBasket? {
      ArrayContents.InsertThenMinus(b.contents, index, item);
    }
  }

  /** Sets a property of an object; a non-object is unchanged. */
  function InsertingKey(key: string, value: Basket): (u: Updater)
    ensures forall b: Basket | !b.ObjectBasket? :: u(b) == b
    ensures forall ps: PropertySet :: u(ObjectBasket(ps)) == ObjectBasket(PropertySets.With(ps, key, value))
  {
    OfObject((ps: PropertySet) => PropertySets.With(ps, key, value))
  }

  /** Removes a property of an object; a non-object is unchanged. */
  function RemovingKey(key: string): (u: Updater)
    ensures forall b: Basket | !b.ObjectBasket? :: u(b) == b
    ensures forall ps: PropertySet :: u(ObjectBasket(ps)) == ObjectBasket(PropertySets.Minus(ps, key))
  {
    OfObject((ps: PropertySet) => PropertySets.Minus(ps, key))
  }

  /** Inserting a key an object lacks and then removing it gives the original object back. */
  lemma InsertingThenRemovingKey(key: string, value: Basket, ps: PropertySet)
    requires ValidProperties(ps) && key !in ps.properties
    ensures RemovingKey(key)(InsertingKey(key, value)(ObjectBasket(ps))) == ObjectBasket(ps)
  {
    assert key !in ps.keys;
    var added := PropertySets.With(ps, key, value);
    PropertySets.RemoveFirstSplices(added.keys, key);
    assert PropertySets.IndexOf(added.keys, key) == |ps.keys| by {
      assert added.keys[|ps.keys|] == key;
    }
    assert added.keys[..|ps.keys|] == ps.keys;
    assert added.properties - {key} == ps.properties;
  }

  /**
   * Updates one array item: a negative index counts from the end, and an index outside the
   * array leaves the basket unchanged.
   */
  function UpdatingIndex(index: Int32, itemUpdater: Updater): (u: Updater)
    ensures forall b: Basket | !b.ArrayBasket? :: u(b) == b
    ensures forall items: seq<Basket> | !(0 <= IndexSegment.Resolve(index, |items|) < |items|) ::
      u(ArrayBasket(items)) == ArrayBasket(items)
    ensures forall items: seq<Basket> | 0 <= IndexSegment.Resolve(index, |items|) < |items| ::
      var actual := IndexSegment.Resolve(index, |items|);
      u(ArrayBasket(items)) == ArrayBasket(items[actual := itemUpdater(items[actual])])
  {
    OfArray((items: seq<Basket>) =>
      var actual := IndexSegment.Resolve(index, |items|);
      if actual < 0 || actual >= |items| then items else items[actual := itemUpdater(items[actual])])
  }

  /** Updates one property; an object without the key is unchanged. */
  function UpdatingKey(key: string, valueUpdater: Updater): (u: Updater)
    ensures forall b: Basket | !b.ObjectBasket? :: u(b) == b
    ensures forall ps: PropertySet | key !in ps.properties :: u(ObjectBasket(ps)) == ObjectBasket(ps)
    ensures forall ps: PropertySet | key in ps.properties ::
      u(ObjectBasket(ps)) == ObjectBasket(PropertySets.With(ps, key, valueUpdater(ps.properties[key])))
  {
    OfObject((ps: PropertySet) => if key in ps.properties then PropertySets.With(ps, key, valueUpdater(ps.properties[key])) else ps)
  }

  /** `updating(index)` does what the one-index path segment's updater does. */
  lemma UpdatingIndexIsIndexSegment(index: Int32, itemUpdater: Updater, b: Basket)
    ensures UpdatingIndex(index, itemUpdater)(b) == IndexSegment.Update([index], itemUpdater, b)
  {
    if b.ArrayBasket? {
      var items := b.contents;
      assert [index][..0] == [];
      assert IndexSegment.UpdateItems([], items, itemUpdater) == items;
      assert b == ArrayBasket(items);
    }
  }

  /** `updating(key)` does what the one-key path segment's updater does. */
  lemma UpdatingKeyIsKeySegment(key: string, valueUpdater: Updater, b: Basket)
    ensures UpdatingKey(key, valueUpdater)(b) == KeySegment.Update([key], valueUpdater, b)
  {
    if b.ObjectBasket? {
      var ps := b.properties;
      assert [key][..0] == [];
      assert KeySegment.UpdateProperties([], ps, valueUpdater) == ps;
      assert b == ObjectBasket(ps);
    }
  }
}
