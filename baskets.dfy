/** Typed access to baskets and the basket-level update operations. */
module Baskets {
  import opened Outcomes
  import opened Values
  import PropertySets
  import ArrayContents

  function AsString(b: Basket): (r: Result<string>)
    ensures r.Ok? <==> GetType(b) == STRING
    ensures r.Ok? ==> StringBasket(r.value) == b
    ensures r.Err? ==> r.error == WrongType(STRING, GetType(b))
  {
    if b.StringBasket? then Ok(b.stringValue) else Err(WrongType(STRING, GetType(b)))
  }

  function AsNumber(b: Basket): (r: Result<Decimal>)
    ensures r.Ok? <==> GetType(b) == NUMBER
    ensures r.Ok? ==> NumberBasket(r.value) == b
    ensures r.Err? ==> r.error == WrongType(NUMBER, GetType(b))
  {
    if b.NumberBasket? then Ok(b.numberValue) else Err(WrongType(NUMBER, GetType(b)))
  }

  function AsBoolean(b: Basket): (r: Result<bool>)
    ensures r.Ok? <==> GetType(b) == BOOLEAN
    ensures r.Ok? ==> OfBoolean(r.value) == b
    ensures r.Err? ==> r.error == WrongType(BOOLEAN, GetType(b))
  {
    match b
    case TrueBasket => Ok(true)
    case FalseBasket => Ok(false)
    case _ => Err(WrongType(BOOLEAN, GetType(b)))
  }

  /** `asNull()` yields Kotlin's null; here the unit value stands for it. */
  function AsNull(b: Basket): (r: Result<()>)
    ensures r.Ok? <==> b == NullBasket
    ensures r.Err? ==> r.error == WrongType(NULL, GetType(b))
  {
    if b.NullBasket? then Ok(()) else Err(WrongType(NULL, GetType(b)))
  }

  function AsArray(b: Basket): (r: Result<seq<Basket>>)
    ensures r.Ok? <==> GetType(b) == ARRAY
    ensures r.Ok? ==> ArrayBasket(r.value) == b
    ensures r.Err? ==> r.error == WrongType(ARRAY, GetType(b))
  {
    if b.ArrayBasket? then Ok(b.contents) else Err(WrongType(ARRAY, GetType(b)))
  }

  function AsObject(b: Basket): (r: Result<PropertySet>)
    ensures r.Ok? <==> GetType(b) == OBJECT
    ensures r.Ok? ==> ObjectBasket(r.value) == b
    ensures r.Err? ==> r.error == WrongType(OBJECT, GetType(b))
  {
    if b.ObjectBasket? then Ok(b.properties) else Err(WrongType(OBJECT, GetType(b)))
  }

  function OfBoolean(value: bool): Basket {
    if value then TrueBasket else FalseBasket
  }

  /** Null, the empty array and the empty object are empty; no other basket is. */
  predicate IsEmpty(b: Basket) {
    match b
    case ArrayBasket(items) => ArrayContents.IsEmpty(items)
    case ObjectBasket(ps) => PropertySets.IsEmpty(ps)
    case NullBasket => true
    case _ => false
  }

  lemma EmptyBaskets(b: Basket)
    requires WellFormed(b)
    ensures IsEmpty(b) <==> b == NullBasket || b == ArrayBasket([]) || b == ObjectBasket(PropertySets.Empty)
  {
    if b.ObjectBasket? {
      var ps := b.properties;
      assert |ps.keys| == 0 || ps.keys[0] in ps.properties;
    }
  }

  function WithProperty(b: Basket, key: string, value: Basket): (r: Result<Basket>)
    ensures r.Ok? <==> b.ObjectBasket?
    ensures r.Err? ==> r.error == WrongType(OBJECT, GetType(b))
    ensures r.Ok? ==> && GetProperty(r.value, key) == Ok(Some(value))
                      && forall k | k != key :: GetProperty(r.value, k) == GetProperty(b, k)
    ensures r.Ok? && WellFormed(b) && WellFormed(value) ==> WellFormed(r.value)
  {
    var ps :- AsObject(b);
    Ok(ObjectBasket(PropertySets.With(ps, key, value)))
  }

  function WithoutProperty(b: Basket, key: string): (r: Result<Basket>)
    ensures r.Ok? <==> b.ObjectBasket?
    ensures r.Err? ==> r.error == WrongType(OBJECT, GetType(b))
    ensures r.Ok? ==> && GetProperty(r.value, key) == Ok(None)
                      && forall k | k != key :: GetProperty(r.value, k) == GetProperty(b, k)
    ensures r.Ok? && WellFormed(b) ==> WellFormed(r.value)
  {
    var ps :- AsObject(b);
    Ok(ObjectBasket(PropertySets.Minus(ps, key)))
  }

  /** `withArrayItem(item)`: appends. */
  function WithArrayItem(b: Basket, item: Basket): (r: Result<Basket>)
    ensures r.Ok? <==> b.ArrayBasket?
    ensures r.Err? ==> r.error == WrongType(ARRAY, GetType(b))
    ensures r.Ok? ==> r.value == ArrayBasket(b.contents + [item])
  {
    var items :- AsArray(b);
    Ok(ArrayBasket(ArrayContents.Plus(items, item)))
  }

  /** `withArrayItem(index, item)`: replaces the item at `index`. */
  function WithArrayItemAt(b: Basket, index: int, item: Basket): (r: Result<Basket>)
    ensures r.Ok? <==> b.ArrayBasket? && 0 <= index < |b.contents|
    ensures !b.ArrayBasket? ==> r == Err(WrongType(ARRAY, GetType(b)))
    ensures b.ArrayBasket? && r.Err? ==> r.error == IndexOutOfBounds(index)
    ensures r.Ok? ==> GetItem(r.value, index) == Ok(item) && |r.value.contents| == |b.contents|
    ensures r.Ok? ==> forall j | 0 <= j < |b.contents| && j != index :: r.value.contents[j] == b.contents[j]
  {
    var items :- AsArray(b);
    var updated :- ArrayContents.With(items, index, item);
    Ok(ArrayBasket(updated))
  }

  function WithoutArrayItem(b: Basket, index: int): (r: Result<Basket>)
    ensures r.Ok? <==> b.ArrayBasket? && 0 <= index < |b.contents|
    ensures !b.ArrayBasket? ==> r == Err(WrongType(ARRAY, GetType(b)))
    ensures b.ArrayBasket? && r.Err? ==> r.error == IndexOutOfBounds(index)
    ensures r.Ok? ==> r.value.ArrayBasket? && |r.value.contents| == |b.contents| - 1
    ensures r.Ok? ==> r.value.contents[..index] == b.contents[..index]
    ensures r.Ok? ==> r.value.contents[index..] == b.contents[index + 1..]
  {
    var items :- AsArray(b);
    var updated :- ArrayContents.Minus(items, index);
    Ok(ArrayBasket(updated))
  }

  /** `getProperty(key)`: null (None) when the object has no such key. */
  function GetProperty(b: Basket, key: string): (r: Result<Option<Basket>>)
    ensures r.Ok? <==> b.ObjectBasket?
    ensures r.Err? ==> r.error == WrongType(OBJECT, GetType(b))
    ensures r.Ok? ==> r.value == PropertySets.Get(b.properties, key)
  {
    var ps :- AsObject(b);
    Ok(PropertySets.Get(ps, key))
  }

  function GetItem(b: Basket, index: int): (r: Result<Basket>)
    ensures r.Ok? <==> b.ArrayBasket? && 0 <= index < |b.contents|
    ensures r.Ok? ==> r.value == b.contents[index]
    ensures !b.ArrayBasket? ==> r == Err(WrongType(ARRAY, GetType(b)))
    ensures b.ArrayBasket? && r.Err? ==> r.error == IndexOutOfBounds(index)
  {
    var items :- AsArray(b);
    ArrayContents.Get(items, index)
  }

  /** `ofObject(entries)`. */
  function OfObject(entries: seq<(string, Basket)>): (r: Basket)
    ensures r.ObjectBasket? && ValidProperties(r.properties)
  {
    ObjectBasket(PropertySets.OfEntries(entries))
  }
}
