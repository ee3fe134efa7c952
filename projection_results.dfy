/**
 * ProjectionResult: the sequence of values a projection yields, kept as a small tree
 * (empty, one value, a flat vector, or a vector of nested results with a cached size)
 * so that concatenation does not copy.
 */
module ProjectionResults {
  import opened Outcomes

  datatype ProjectionResult<T> =
    | EmptyResult
    | Singleton(single: T)
    | Multiple(values: seq<T>)
    | Nested(results: seq<ProjectionResult<T>>, size: int)

  /** The values in iteration order. */
  function Elements<T>(r: ProjectionResult<T>): seq<T>
    decreases r
  {
    match r
    case EmptyResult => []
    case Singleton(x) => [x]
    case Multiple(vs) => vs
    case Nested(rs, _) => Concat(rs)
  }

  function Concat<T>(rs: seq<ProjectionResult<T>>): seq<T>
    decreases rs
  {
    if |rs| == 0 then [] else Elements(rs[0]) + Concat(rs[1..])
  }

  /**
   * The shape every result built by `empty`, `ofSingle`, `add` and `map` has: a flat vector holds
   * at least two values, a nested one at least two non-empty valid parts, and its cached size
   * is its number of values.
   */
  predicate Valid<T>(r: ProjectionResult<T>)
    decreases r
  {
    && (r.Multiple? ==> |r.values| >= 2)
    && (r.Nested? ==>
          && |r.results| >= 2
          && (forall i | 0 <= i < |r.results| :: !r.results[i].EmptyResult? && Valid(r.results[i]))
          && r.size == |Concat(r.results)|)
  }

  function Size<T>(r: ProjectionResult<T>): int {
    match r
    case EmptyResult => 0
    case Singleton(_) => 1
    case Multiple(vs) => |vs|
    case Nested(_, size) => size
  }

  predicate IsEmpty<T>(r: ProjectionResult<T>) {
    r.EmptyResult?
  }

  function OfSingle<T>(x: T): (r: ProjectionResult<T>)
    ensures Valid(r) && Elements(r) == [x]
  {
    Singleton(x)
  }

  /**
   * `add`: the values of `a` followed by those of `b` (proved in AddConcatenates).
   * A nested result always has parts, so the source's `results[size - 1]` never misses;
   * the model gives back `b` in that case, which no valid result reaches.
   */
  function Add<T>(a: ProjectionResult<T>, b: ProjectionResult<T>): ProjectionResult<T>
    decreases a
  {
    match a
    case EmptyResult => b
    case Singleton(x) =>
      (match b
       case EmptyResult => a
       case Singleton(y) => Multiple([x, y])
       case Multiple(ws) => Multiple([x] + ws)
       case Nested(rs, n) => Nested([a] + rs, n + 1))
    case Multiple(vs) =>
      (match b
       case EmptyResult => a
       case Singleton(y) => Multiple(vs + [y])
       case Multiple(ws) => Nested([a, b], |vs| + |ws|)
       case Nested(rs, n) => Nested([a] + rs, n + |vs|))
    case Nested(rs, n) =>
      (match b
       case EmptyResult => a
       case Singleton(_) =>
         if |rs| == 0 then b
         else Nested(rs[..|rs| - 1] + [Add(rs[|rs| - 1], b)], n + 1)
       case Multiple(ws) => Nested(rs + [b], n + |ws|)
       case Nested(_, m) => Nested(rs + [b], n + m))
  }

  lemma {:induction false} ConcatAppend<T>(rs: seq<ProjectionResult<T>>, x: ProjectionResult<T>)
    ensures Concat(rs + [x]) == Concat(rs) + Elements(x)
    decreases |rs|
  {
    if |rs| == 0 {
      assert rs + [x] == [x];
      assert Concat([x]) == Elements(x) + Concat([x][1..]);
    } else {
      assert (rs + [x])[1..] == rs[1..] + [x];
      ConcatAppend(rs[1..], x);
    }
  }

  lemma ConcatPrepend<T>(x: ProjectionResult<T>, rs: seq<ProjectionResult<T>>)
    ensures Concat([x] + rs) == Elements(x) + Concat(rs)
  {
    assert ([x] + rs)[1..] == rs;
  }

  lemma {:induction false} SizeIsLength<T>(r: ProjectionResult<T>)
    requires Valid(r)
    ensures Size(r) == |Elements(r)|
  {
  }

  /** A valid result has no values exactly when it is the empty result. */
  lemma {:induction false} EmptyIffNoElements<T>(r: ProjectionResult<T>)
    requires Valid(r)
    ensures IsEmpty(r) <==> Elements(r) == []
  {
    if r.Nested? {
      var rs := r.results;
      EmptyIffNoElements(rs[0]);
      assert Concat(rs) == Elements(rs[0]) + Concat(rs[1..]);
    }
  }

  /** `add` concatenates, keeps the shape invariant, and adds the sizes. */
  lemma {:induction false} AddConcatenates<T>(a: ProjectionResult<T>, b: ProjectionResult<T>)
    requires Valid(a) && Valid(b)
    ensures Valid(Add(a, b))
    ensures Elements(Add(a, b)) == Elements(a) + Elements(b)
    ensures Size(Add(a, b)) == Size(a) + Size(b)
    decreases a, 1
  {
    SizeIsLength(a);
    SizeIsLength(b);
    match a
    case EmptyResult =>
    case Singleton(x) =>
      match b {
        case EmptyResult =>
        case Singleton(y) =>
        case Multiple(ws) =>
        case Nested(rs, n) =>
          ConcatPrepend(a, rs);
      }
    case Multiple(vs) =>
      match b {
        case EmptyResult =>
        case Singleton(y) =>
        case Multiple(ws) =>
          ConcatPrepend(a, [b]);
          ConcatPrepend(b, []);
        case Nested(rs, n) =>
          ConcatPrepend(a, rs);
      }
    case Nested(_, _) =>
      AddNestedConcatenates(a, b);
  }

  lemma {:induction false} AddNestedConcatenates<T>(a: ProjectionResult<T>, b: ProjectionResult<T>)
    requires a.Nested? && Valid(a) && Valid(b)
    ensures Valid(Add(a, b))
    ensures Elements(Add(a, b)) == Elements(a) + Elements(b)
    ensures Size(Add(a, b)) == Size(a) + Size(b)
    decreases a, 0
  {
    SizeIsLength(a);
    SizeIsLength(b);
    var rs := a.results;
    match b {
      case EmptyResult =>
      case Singleton(y) =>
        var init := rs[..|rs| - 1];
        var last := rs[|rs| - 1];
        AddConcatenates(last, b);
        assert rs == init + [last];
        ConcatAppend(init, last);
        ConcatAppend(init, Add(last, b));
        var rs' := init + [Add(last, b)];
        assert Valid(Nested(rs', Size(a) + Size(b))) by {
          forall i | 0 <= i < |rs'| ensures !rs'[i].EmptyResult? && Valid(rs'[i]) {
            if i < |init| { assert rs'[i] == rs[i]; }
          }
        }
      case Multiple(ws) =>
        ConcatAppend(rs, b);
        assert Valid(Nested(rs + [b], Size(a) + Size(b))) by {
          forall i | 0 <= i < |rs| + 1 ensures !(rs + [b])[i].EmptyResult? && Valid((rs + [b])[i]) {
            if i < |rs| { assert (rs + [b])[i] == rs[i]; }
          }
        }
      case Nested(_, m) =>
        ConcatAppend(rs, b);
        assert Valid(Nested(rs + [b], Size(a) + Size(b))) by {
          forall i | 0 <= i < |rs| + 1 ensures !(rs + [b])[i].EmptyResult? && Valid((rs + [b])[i]) {
            if i < |rs| { assert (rs + [b])[i] == rs[i]; }
          }
        }
    }
  }

  lemma AddEmptyIdentity<T>(r: ProjectionResult<T>)
    requires Valid(r)
    ensures Add(EmptyResult, r) == r && Add(r, EmptyResult) == r
  {
  }

  /** `add` is associative on values: grouping never changes the order of the values. */
  lemma AddAssociative<T>(a: ProjectionResult<T>, b: ProjectionResult<T>, c: ProjectionResult<T>)
    requires Valid(a) && Valid(b) && Valid(c)
    ensures Valid(Add(a, b)) && Valid(Add(b, c))
    ensures Elements(Add(Add(a, b), c)) == Elements(Add(a, Add(b, c)))
  {
    AddLeftGrouped(a, b, c);
    AddRightGrouped(a, b, c);
  }

  lemma AddLeftGrouped<T>(a: ProjectionResult<T>, b: ProjectionResult<T>, c: ProjectionResult<T>)
    requires Valid(a) && Valid(b) && Valid(c)
    ensures Valid(Add(a, b))
    ensures Elements(Add(Add(a, b), c)) == (Elements(a) + Elements(b)) + Elements(c)
  {
    AddConcatenates(a, b);
    AddConcatenates(Add(a, b), c);
  }

  lemma AddRightGrouped<T>(a: ProjectionResult<T>, b: ProjectionResult<T>, c: ProjectionResult<T>)
    requires Valid(a) && Valid(b) && Valid(c)
    ensures Valid(Add(b, c))
    ensures Elements(Add(a, Add(b, c))) == Elements(a) + (Elements(b) + Elements(c))
  {
    AddConcatenates(b, c);
    AddConcatenates(a, Add(b, c));
  }

  /** Adds up `f(x)` for every `x` in order, as the projectors' loops do. */
  function AddAll<X, T>(xs: seq<X>, f: X -> ProjectionResult<T>): ProjectionResult<T>
    decreases |xs|
  {
    if |xs| == 0 then EmptyResult else Add(AddAll(xs[..|xs| - 1], f), f(xs[|xs| - 1]))
  }

  /** Adding one more element's result at the end. */
  lemma AddAllSnoc<X, T>(xs: seq<X>, x: X, f: X -> ProjectionResult<T>)
    ensures AddAll(xs + [x], f) == Add(AddAll(xs, f), f(x))
  {
    assert (xs + [x])[..|xs|] == xs;
  }

  /** The values of `f(x)` for every `x`, in order. */
  function FlatElements<X, T>(xs: seq<X>, f: X -> ProjectionResult<T>): seq<T>
    decreases |xs|
  {
    if |xs| == 0 then [] else FlatElements(xs[..|xs| - 1], f) + Elements(f(xs[|xs| - 1]))
  }

  lemma {:induction false} AddAllElements<X, T>(xs: seq<X>, f: X -> ProjectionResult<T>)
    requires forall x :: Valid(f(x))
    ensures Valid(AddAll(xs, f))
    ensures Elements(AddAll(xs, f)) == FlatElements(xs, f)
    decreases |xs|
  {
    if |xs| > 0 {
      AddAllElements(xs[..|xs| - 1], f);
      AddConcatenates(AddAll(xs[..|xs| - 1], f), f(xs[|xs| - 1]));
    }
  }

  lemma FlatElementsSnoc<X, T>(xs: seq<X>, x: X, f: X -> ProjectionResult<T>)
    ensures FlatElements(xs + [x], f) == FlatElements(xs, f) + Elements(f(x))
  {
    assert (xs + [x])[..|xs|] == xs;
  }

  lemma {:induction false} FlatElementsAppend<X, T>(xs: seq<X>, ys: seq<X>, f: X -> ProjectionResult<T>)
    ensures FlatElements(xs + ys, f) == FlatElements(xs, f) + FlatElements(ys, f)
    decreases |ys|
  {
    if |ys| == 0 {
      assert xs + ys == xs;
    } else {
      var front, last := ys[..|ys| - 1], ys[|ys| - 1];
      assert ys == front + [last];
      assert xs + ys == (xs + front) + [last];
      FlatElementsSnoc(xs + front, last, f);
      FlatElementsSnoc(front, last, f);
      FlatElementsAppend(xs, front, f);
    }
  }

  function MapSeq<T, O>(xs: seq<T>, f: T -> O): (r: seq<O>)
    ensures |r| == |xs| && forall i | 0 <= i < |xs| :: r[i] == f(xs[i])
  {
    seq(|xs|, i requires 0 <= i < |xs| => f(xs[i]))
  }

  /** `map`: every value mapped, in order; nested results are flattened. */
  function Map<T, O>(r: ProjectionResult<T>, f: T -> O): (m: ProjectionResult<O>)
    ensures Elements(m) == MapSeq(Elements(r), f)
    ensures Valid(r) ==> Valid(m) && Size(m) == Size(r)
    ensures r.Singleton? ==> m.Singleton?
  {
    SizeLengthAll(r);
    match r
    case EmptyResult => EmptyResult
    case Singleton(x) => Singleton(f(x))
    case Multiple(vs) => Multiple(MapSeq(vs, f))
    case Nested(rs, _) => Multiple(MapSeq(Elements(r), f))
  }

  lemma SizeLengthAll<T>(r: ProjectionResult<T>)
    ensures Valid(r) ==> Size(r) == |Elements(r)| && (r.Nested? ==> |Elements(r)| >= 2)
  {
    if Valid(r) && r.Nested? {
      var rs := r.results;
      EmptyIffNoElements(rs[0]);
      EmptyIffNoElements(rs[1]);
      assert Concat(rs) == Elements(rs[0]) + Concat(rs[1..]);
      assert Concat(rs[1..]) == Elements(rs[1]) + Concat(rs[2..]);
    }
  }

  /** `single`: the one value, or the exception the source throws. */
  function Single<T>(r: ProjectionResult<T>): (s: Result<T>)
    ensures r.EmptyResult? ==> s == Err(NoSuchElement("Empty projection result contains no values"))
    ensures r.Multiple? || r.Nested? ==> s.Err? && s.error.IllegalState?
    ensures Valid(r) ==> (s.Ok? <==> |Elements(r)| == 1)
    ensures s.Ok? ==> Elements(r) == [s.value]
  {
    SizeLengthAll(r);
    match r
    case EmptyResult => Err(NoSuchElement("Empty projection result contains no values"))
    case Singleton(x) => Ok(x)
    case Multiple(_) => Err(IllegalState("getSingle() called, but multiple values available: "))
    case Nested(_, _) => Err(IllegalState("getSingle() called, but multiple values available: "))
  }

  /** Walks a result as its iterator does, collecting the values. */
  method ToList<T>(r: ProjectionResult<T>) returns (xs: seq<T>)
    requires Valid(r)
    ensures xs == Elements(r)
    decreases r
  {
    match r {
      case EmptyResult => xs := [];
      case Singleton(x) => xs := [x];
      case Multiple(vs) => xs := vs;
      case Nested(rs, _) =>
        xs := [];
        for i := 0 to |rs|
          invariant xs + Concat(rs[i..]) == Concat(rs)
        {
          assert Concat(rs[i..]) == Elements(rs[i]) + Concat(rs[i + 1..]);
          var part := ToList(rs[i]);
          xs := xs + part;
        }
    }
  }

  /** `equals`: two results are equal when their iterators yield the same values. */
  method Equals<T(==)>(a: ProjectionResult<T>, b: ProjectionResult<T>) returns (eq: bool)
    requires Valid(a) && Valid(b)
    ensures eq <==> Elements(a) == Elements(b)
  {
    var left := ToList(a);
    var right := ToList(b);
    var i := 0;
    while i < |left|
      invariant 0 <= i <= |left|
      invariant i <= |right| && left[..i] == right[..i]
    {
      if i >= |right| || right[i] != left[i] {
        return false;
      }
      i := i + 1;
    }
    if i < |right| {
      return false;
    }
    assert left == left[..i] && right == right[..i];
    return true;
  }

  /** `allMatch`: true when every value satisfies the predicate (stops at the first that does not). */
  method AllMatch<T>(r: ProjectionResult<T>, matcher: T -> bool) returns (all: bool)
    requires Valid(r)
    ensures all <==> forall i | 0 <= i < |Elements(r)| :: matcher(Elements(r)[i])
  {
    var xs := ToList(r);
    for i := 0 to |xs|
      invariant forall j | 0 <= j < i :: matcher(xs[j])
    {
      if !matcher(xs[i]) {
        return false;
      }
    }
    return true;
  }
}
