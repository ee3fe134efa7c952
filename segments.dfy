/**
 * Path segments: the steps of a JSON path. Each segment can say how it matches an array
 * index or an object key while a token stream goes by, and (in the per-segment modules)
 * how it projects and updates a basket in memory.
 */
module Segments {
  import opened Outcomes
  import opened Values
  import opened ProjectionResults
  import PropertySets

  /** A Kotlin `Int`. */
  type Int32 = i: int | -0x8000_0000 <= i <= 0x7fff_ffff

  /** Slice bounds that stand for "no bound": Int.MIN_VALUE and Int.MAX_VALUE. */
  const LOWER_UNBOUNDED: Int32 := -0x8000_0000
  const UPPER_UNBOUNDED: Int32 := 0x7fff_ffff

  datatype MatchResult = UNMATCHED | MATCHED_UNBOUND | MATCHED_BOUND

  datatype PathSegment =
    | ArrayIndex(indices: seq<Int32>)
    | ArraySlice(startIndex: Int32, endIndex: Int32)
    | ObjectKey(keys: seq<string>)
    | Wildcard
    | DeepScanToObjectKey(key: string)
    | MatchingItem(representation: string, test: Basket -> bool)

  type Path = seq<PathSegment>

  type Updater = Basket -> Basket

  type Projector = Basket -> ProjectionResult<Basket>

  /** Only an item-matching segment is conditional: it binds whatever item satisfies its predicate. */
  predicate IsConditional(segment: PathSegment) {
    segment.MatchingItem?
  }

  /**
   * How the segment matches array index `index` of the container being streamed. Indices are
   * compared as written: a negative index or slice bound never stands for a position from the end.
   */
  function MatchesIndex(segment: PathSegment, index: Int32): (r: Result<MatchResult>)
    ensures r.Err? <==> IsConditional(segment)
    ensures r == Ok(MATCHED_BOUND) <==>
      match segment
      case ArrayIndex(indices) => index in indices
      case ArraySlice(s, e) => s <= index < e
      case Wildcard => true
      case _ => false
    ensures r == Ok(MATCHED_UNBOUND) <==> segment.DeepScanToObjectKey?
  {
    match segment
    case ArrayIndex(indices) => Ok(if index in indices then MATCHED_BOUND else UNMATCHED)
    case ArraySlice(s, e) => Ok(if index >= s && index < e then MATCHED_BOUND else UNMATCHED)
    case ObjectKey(_) => Ok(UNMATCHED)
    case Wildcard => Ok(MATCHED_BOUND)
    case DeepScanToObjectKey(_) => Ok(MATCHED_UNBOUND)
    case MatchingItem(_, _) => Err(UnsupportedOperation(""))
  }

  /** How the segment matches the object key `key` of the object being streamed. */
  function MatchesKey(segment: PathSegment, key: string): (r: Result<MatchResult>)
    ensures r.Err? <==> IsConditional(segment)
    ensures r == Ok(MATCHED_BOUND) <==>
      match segment
      case ObjectKey(keys) => key in keys
      case Wildcard => true
      case DeepScanToObjectKey(k) => k == key
      case _ => false
    ensures r == Ok(MATCHED_UNBOUND) <==> segment.DeepScanToObjectKey? && segment.key != key
  {
    match segment
    case ArrayIndex(_) => Ok(UNMATCHED)
    case ArraySlice(_, _) => Ok(UNMATCHED)
    case ObjectKey(keys) => Ok(if key in keys then MATCHED_BOUND else UNMATCHED)
    case Wildcard => Ok(MATCHED_BOUND)
    case DeepScanToObjectKey(k) => Ok(if k == key then MATCHED_BOUND else MATCHED_UNBOUND)
    case MatchingItem(_, _) => Err(UnsupportedOperation(""))
  }

  /** What a struct projector visits: array items, object values in key order, nothing of a scalar. */
  function Children(b: Basket): seq<Basket> {
    match b
    case ArrayBasket(items) => items
    case ObjectBasket(ps) => PropertySets.ValuesOf(ps)
    case _ => []
  }

  /** `f` applied `n` times: what an updater does to an item that a segment selects `n` times. */
  function ApplyN(f: Updater, n: nat, b: Basket): Basket {
    if n == 0 then b else f(ApplyN(f, n - 1, b))
  }

  /** How many times `x` occurs in `s`. */
  function Count<T(==)>(s: seq<T>, x: T): (r: nat)
    ensures r <= |s|
    ensures r == 0 <==> x !in s
  {
    if |s| == 0 then 0 else Count(s[..|s| - 1], x) + (if s[|s| - 1] == x then 1 else 0)
  }

  /** The identity projector: every basket projects to itself alone. */
  function Identity(): (p: Projector)
    ensures forall b :: p(b) == Singleton(b)
  {
    b => OfSingle(b)
  }

  /** Adding up the identity projections of some baskets gives back those baskets. */
  lemma IdentityFlattens(xs: seq<Basket>)
    ensures Valid(AddAll(xs, Identity()))
    ensures Elements(AddAll(xs, Identity())) == xs
  {
    AddAllElements(xs, Identity());
    IdentityFlatElements(xs);
  }

  lemma {:induction false} IdentityFlatElements(xs: seq<Basket>)
    ensures FlatElements(xs, Identity()) == xs
    decreases |xs|
  {
    if |xs| > 0 {
      IdentityFlatElements(xs[..|xs| - 1]);
      assert xs[..|xs| - 1] + [xs[|xs| - 1]] == xs;
    }
  }
}
