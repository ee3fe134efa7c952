/**
 * Whole paths in memory. A segment's projector (updater) is built around the projector (updater)
 * of the rest of the path; the last segment continues with the identity projector (the given
 * updater), and the empty path projects a basket to itself.
 */
module PathProjection {
  import opened Outcomes
  import opened Values
  import opened ProjectionResults
  import opened Segments
  import Updaters
  import IndexSegment
  import SliceSegment
  import KeySegment
  import WildcardSegment
  import DeepScanSegment
  import MatchingSegment

  /** A segment's projector around a continuation. */
  function SegmentProject(segment: PathSegment, cont: Projector, b: Basket): ProjectionResult<Basket> {
    match segment
    case ArrayIndex(indices) => IndexSegment.Project(indices, cont, b)
    case ArraySlice(s, e) => SliceSegment.Project(s, e, cont, b)
    case ObjectKey(keys) => KeySegment.Project(keys, cont, b)
    case Wildcard => WildcardSegment.Project(cont, b)
    case DeepScanToObjectKey(key) => DeepScanSegment.Project(key, cont, b)
    case MatchingItem(_, test) => MatchingSegment.Project(test, cont, b)
  }

  /** A segment's updater around a continuation. */
  function SegmentUpdate(segment: PathSegment, cont: Updater, b: Basket): Basket {
    match segment
    case ArrayIndex(indices) => IndexSegment.Update(indices, cont, b)
    case ArraySlice(s, e) => SliceSegment.Update(s, e, cont, b)
    case ObjectKey(keys) => KeySegment.Update(keys, cont, b)
    case Wildcard => WildcardSegment.Update(cont, b)
    case DeepScanToObjectKey(key) => DeepScanSegment.Update(key, cont, b)
    case MatchingItem(_, test) => MatchingSegment.Update(test, cont, b)
  }

  /** The projector of a whole path; every segment looks inside a container, so a scalar gives nothing. */
  function ProjectPath(path: Path, b: Basket): (r: ProjectionResult<Basket>)
    ensures |path| > 0 && !IsStruct(b) ==> r == EmptyResult
    decreases |path|
  {
    if |path| == 0 then OfSingle(b)
    else SegmentProject(path[0], x => ProjectPath(path[1..], x), b)
  }

  /** The updater of a whole path; every segment looks inside a container, so a scalar is kept. */
  function UpdatePath(path: Path, updater: Updater, b: Basket): (r: Basket)
    ensures |path| > 0 && !IsStruct(b) ==> r == b
    decreases |path|
  {
    if |path| == 0 then updater(b)
    else SegmentUpdate(path[0], x => UpdatePath(path[1..], updater, x), b)
  }

  /** Every segment's projector gives a well-shaped result when its continuation does. */
  lemma SegmentProjectValid(segment: PathSegment, cont: Projector, b: Basket)
    requires forall x :: Valid(cont(x))
    ensures Valid(SegmentProject(segment, cont, b))
  {
    match segment {
      case ArrayIndex(indices) =>
        if b.ArrayBasket? { AddAllElements(IndexSegment.SelectedItems(indices, b.contents), cont); }
      case ArraySlice(s, e) =>
        if b.ArrayBasket? { AddAllElements(SliceSegment.SelectedItems(s, e, b.contents), cont); }
      case ObjectKey(keys) =>
        if b.ObjectBasket? { AddAllElements(KeySegment.SelectedValues(keys, b.properties), cont); }
      case Wildcard => AddAllElements(Children(b), cont);
      case DeepScanToObjectKey(key) => DeepScanSegment.ProjectValid(key, cont, b);
      case MatchingItem(_, test) => AddAllElements(MatchingSegment.Filter(Children(b), test), cont);
    }
  }

  /** A path projection is always a well-shaped result, so its size is its number of values. */
  lemma {:induction false} ProjectPathValid(path: Path, b: Basket)
    ensures Valid(ProjectPath(path, b))
    ensures Size(ProjectPath(path, b)) == |Elements(ProjectPath(path, b))|
    decreases |path|
  {
    if |path| > 0 {
      forall x {
        ProjectPathValid(path[1..], x);
      }
      SegmentProjectValid(path[0], x => ProjectPath(path[1..], x), b);
    }
    SizeLengthAll(ProjectPath(path, b));
  }

  /**
   * The item projector of a conditional segment: the projection of the rest of the path for an
   * item the predicate accepts, nothing otherwise. Other segments refuse to build one.
   */
  function ItemProjector(segment: PathSegment, tail: Path): (r: Result<Projector>)
    ensures r.Ok? <==> IsConditional(segment)
    ensures r.Err? ==> r.error == UnsupportedOperation("Cannot create item projector for non-conditional path segment")
    ensures r.Ok? ==> forall b | !segment.test(b) :: r.value(b) == EmptyResult
    ensures r.Ok? ==> forall b | segment.test(b) :: r.value(b) == ProjectPath(tail, b)
  {
    if segment.MatchingItem? then
      Ok(b => if segment.test(b) then (if |tail| == 0 then OfSingle(b) else ProjectPath(tail, b)) else EmptyResult)
    else Err(UnsupportedOperation("Cannot create item projector for non-conditional path segment"))
  }

  /**
   * The item updater of a conditional segment: the update of the rest of the path for an item
   * the predicate accepts, no change otherwise. Other segments refuse to build one.
   */
  function ItemUpdater(segment: PathSegment, tail: Path, updater: Updater): (r: Result<Updater>)
    ensures r.Ok? <==> IsConditional(segment)
    ensures r.Err? ==> r.error == UnsupportedOperation("Cannot create item updater for non-conditional path segment")
    ensures r.Ok? ==> forall b | !segment.test(b) :: r.value(b) == b
    ensures r.Ok? ==> forall b | segment.test(b) :: r.value(b) == UpdatePath(tail, updater, b)
  {
    if segment.MatchingItem? then
      Ok(Updaters.Branch(segment.test, if |tail| == 0 then updater else x => UpdatePath(tail, updater, x), Updaters.NoOp()))
    else Err(UnsupportedOperation("Cannot create item updater for non-conditional path segment"))
  }
}
