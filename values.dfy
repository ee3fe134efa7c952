/**
 * The JSON value model ("baskets"): the sealed Basket hierarchy, its property sets
 * and the type tags used in error messages.
 */
module Values {
  import opened Outcomes

  /** A java.math.BigDecimal: unscaled value and scale. Its equality compares both, like BigDecimal.equals. */
  datatype Decimal = Decimal(unscaled: int, scale: int)

  datatype BasketType = STRING | NUMBER | BOOLEAN | NULL | ARRAY | OBJECT

  /**
   * A JSON value. TrueBasket, FalseBasket and NullBasket are singletons in the source;
   * ArrayBasket holds the array contents in order.
   */
  datatype Basket =
    | StringBasket(stringValue: string)
    | NumberBasket(numberValue: Decimal)
    | TrueBasket
    | FalseBasket
    | NullBasket
    | ArrayBasket(contents: seq<Basket>)
    | ObjectBasket(properties: PropertySet)

  /**
   * An object's properties: the keys in insertion order, beside a map from key to value.
   * Equality compares both, as PropertySet.equals does.
   */
  datatype PropertySet = PropertySet(keys: seq<string>, properties: map<string, Basket>)

  predicate Distinct<T(==)>(s: seq<T>) {
    forall i, j | 0 <= i < j < |s| :: s[i] != s[j]
  }

  /** The property set invariant every operation of the source keeps: no key twice, and the same keys in both parts. */
  predicate ValidProperties(ps: PropertySet) {
    && Distinct(ps.keys)
    && (forall k | k in ps.keys :: k in ps.properties)
    && (forall k | k in ps.properties :: k in ps.keys)
  }

  /** Every property set inside the value keeps its invariant. */
  predicate WellFormed(b: Basket) {
    match b
    case ArrayBasket(items) => forall i | 0 <= i < |items| :: WellFormed(items[i])
    case ObjectBasket(ps) =>
      && ValidProperties(ps)
      && forall k | k in ps.properties :: WellFormed(ps.properties[k])
    case _ => true
  }

  function TypeName(t: BasketType): string {
    match t
    case STRING => "STRING"
    case NUMBER => "NUMBER"
    case BOOLEAN => "BOOLEAN"
    case NULL => "NULL"
    case ARRAY => "ARRAY"
    case OBJECT => "OBJECT"
  }

  /** The exception an `as...` accessor throws when the basket has another type. */
  function WrongType(requested: BasketType, actual: BasketType): Exception {
    UnsupportedOperation("Cannot get " + TypeName(requested) + " value from basket of type " + TypeName(actual))
  }

  /** `getType`: total, one tag per variant except that true and false share BOOLEAN. */
  function GetType(b: Basket): (t: BasketType)
    ensures t == BOOLEAN <==> b == TrueBasket || b == FalseBasket
    ensures t == ARRAY || t == OBJECT <==> IsStruct(b)
  {
    match b
    case ArrayBasket(_) => ARRAY
    case ObjectBasket(_) => OBJECT
    case StringBasket(_) => STRING
    case NumberBasket(_) => NUMBER
    case TrueBasket => BOOLEAN
    case FalseBasket => BOOLEAN
    case NullBasket => NULL
  }

  /** A scalar is anything that is neither an array nor an object. */
  predicate IsStruct(b: Basket) {
    b.ArrayBasket? || b.ObjectBasket?
  }
}
