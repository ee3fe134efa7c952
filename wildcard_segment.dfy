/** The `.*` / `[*]` segment: selects every item of an array and every value of an object. */
module WildcardSegment {
  import opened Outcomes
  import opened Values
  import opened ProjectionResults
  import opened Segments
  import PropertySets

  /** The projector: every array item and every object value through the continuation; a scalar has none. */
  function Project(cont: Projector, b: Basket): (r: ProjectionResult<Basket>)
    ensures !IsStruct(b) ==> r == EmptyResult
  {
    AddAll(Children(b), cont)
  }

  method ProjectAll(items: seq<Basket>, cont: Projector) returns (result: ProjectionResult<Basket>)
    ensures result == AddAll(items, cont)
  {
    result := EmptyResult;
    for i := 0 to |items|
      invariant result == AddAll(items[..i], cont)
    {
      assert items[..i + 1][..i] == items[..i];
      result := Add(result, cont(items[i]));
    }
    assert items[..|items|] == items;
  }

  /** Both of the source's loops (over array items and over object values) have this shape. */
  method ProjectStruct(b: Basket, cont: Projector) returns (result: ProjectionResult<Basket>)
    ensures result == Project(cont, b)
  {
    match b {
      case ArrayBasket(items) => result := ProjectAll(items, cont);
      case ObjectBasket(ps) => result := ProjectAll(PropertySets.ValuesOf(ps), cont);
      case _ => result := EmptyResult;
    }
  }

  /** The updater: every array item and every object value passed through the continuation. */
  function Update(cont: Updater, b: Basket): (r: Basket)
    ensures !IsStruct(b) ==> r == b
  {
    match b
    case ArrayBasket(items) => ArrayBasket(MapSeq(items, cont))
    case ObjectBasket(ps) => ObjectBasket(PropertySets.MapValues(ps, cont))
    case _ => b
  }

  method UpdateArray(items: seq<Basket>, cont: Updater) returns (updated: seq<Basket>)
    ensures updated == MapSeq(items, cont)
  {
    updated := [];
    for i := 0 to |items|
      invariant updated == MapSeq(items[..i], cont)
    {
      updated := updated + [cont(items[i])];
    }
    assert items[..|items|] == items;
  }

  method UpdateEntries(ps: PropertySet, cont: Updater) returns (updated: PropertySet)
    ensures updated == PropertySets.MapValues(ps, cont)
  {
    var es := PropertySets.Entries(ps);
    var entries: seq<(string, Basket)> := [];
    for i := 0 to |es|
      invariant entries == PropertySets.MapEntryValues(es[..i], (k: string, v: Basket) => cont(v))
    {
      entries := entries + [(es[i].0, cont(es[i].1))];
    }
    assert es[..|es|] == es;
    updated := PropertySets.Of(entries);
  }

  /**
   * The updater keeps an array's length and a valid object's keys in order, passing every
   * child through the continuation; a scalar is left as it is.
   */
  lemma UpdateKeepsShape(cont: Updater, b: Basket)
    ensures b.ArrayBasket? ==> Update(cont, b) == ArrayBasket(MapSeq(b.contents, cont))
    ensures b.ObjectBasket? && ValidProperties(b.properties) ==>
      && Update(cont, b).properties.keys == b.properties.keys
      && forall k | k in b.properties.properties ::
           PropertySets.Get(Update(cont, b).properties, k) == Some(cont(b.properties.properties[k]))
    ensures !IsStruct(b) ==> Update(cont, b) == b
  {
    if b.ObjectBasket? && ValidProperties(b.properties) {
      PropertySets.MapValuesKeepsKeys(b.properties, cont);
    }
  }
}
