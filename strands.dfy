/**
 * Strands: the paths the string parser builds. Each strand has its own in-memory `get`, the
 * values it reaches in order, and `update`, which rewrites those values with an updater.
 * A composed strand applies its second strand to whatever its first one reaches.
 */
module Strands {
  import opened Outcomes
  import opened Values
  import opened Segments
  import PropertySets
  import ProjectionResults
  import Baskets
  import IndexSegment
  import KeySegment
  import SliceSegment
  import MatchingSegment
  import DeepScanSegment
  import WildcardSegment

  datatype Strand =
    | RootStrand
    | ComposedStrand(first: Strand, second: Strand)
    | IndexStrand(indices: seq<Int32>)
    | KeyStrand(keys: seq<string>)
    | ArraySliceStrand(start: Int32, end: Int32)
    | ConditionalStrand(test: Basket -> bool)
    | DeepScanStrand(key: string)
    | WildcardStrand
    | DeepWildcardStrand

  /** `flatMap` over a sequence: the results of `f` for each element, concatenated in order. */
  function FlatMap<X, Y>(xs: seq<X>, f: X -> seq<Y>): seq<Y>
    decreases |xs|
  {
    if |xs| == 0 then [] else FlatMap(xs[..|xs| - 1], f) + f(xs[|xs| - 1])
  }

  lemma {:induction false} FlatMapAppend<X, Y>(xs: seq<X>, ys: seq<X>, f: X -> seq<Y>)
    ensures FlatMap(xs + ys, f) == FlatMap(xs, f) + FlatMap(ys, f)
    decreases |ys|
  {
    if |ys| == 0 {
      assert xs + ys == xs;
    } else {
      assert (xs + ys)[..|xs + ys| - 1] == xs + ys[..|ys| - 1];
      FlatMapAppend(xs, ys[..|ys| - 1], f);
    }
  }

  lemma {:induction false} FlatMapCongruence<X, Y>(xs: seq<X>, f: X -> seq<Y>, g: X -> seq<Y>)
    requires forall i | 0 <= i < |xs| :: f(xs[i]) == g(xs[i])
    ensures FlatMap(xs, f) == FlatMap(xs, g)
    decreases |xs|
  {
    if |xs| > 0 {
      FlatMapCongruence(xs[..|xs| - 1], f, g);
    }
  }

  lemma {:induction false} FlatMapUnit<X>(xs: seq<X>)
    ensures FlatMap(xs, x => [x]) == xs
    decreases |xs|
  {
    if |xs| > 0 {
      FlatMapUnit(xs[..|xs| - 1]);
      assert xs[..|xs| - 1] + [xs[|xs| - 1]] == xs;
    }
  }

  lemma {:induction false} FlatMapAssociative<X, Y, Z>(xs: seq<X>, f: X -> seq<Y>, g: Y -> seq<Z>, h: X -> seq<Z>)
    requires forall x :: h(x) == FlatMap(f(x), g)
    ensures FlatMap(FlatMap(xs, f), g) == FlatMap(xs, h)
    decreases |xs|
  {
    if |xs| > 0 {
      var init := xs[..|xs| - 1];
      FlatMapAssociative(init, f, g, h);
      FlatMapAppend(FlatMap(init, f), f(xs[|xs| - 1]), g);
    }
  }

  // ---- IndexStrand ----

  /** The positions the listed indices name inside an array of `size`, negatives counted from the end, in listed order. */
  function IndicesInBounds(indices: seq<Int32>, size: nat): (r: seq<int>)
    ensures forall i | 0 <= i < |r| :: 0 <= r[i] < size
    ensures forall j | j in r :: j in IndexSegment.ResolvedIndices(indices, size)
    ensures forall j | j in IndexSegment.ResolvedIndices(indices, size) && 0 <= j < size :: j in r
    decreases |indices|
  {
    if |indices| == 0 then []
    else
      var init := indices[..|indices| - 1];
      assert IndexSegment.ResolvedIndices(indices, size) ==
        IndexSegment.ResolvedIndices(init, size) + [IndexSegment.Resolve(indices[|indices| - 1], size)];
      var j := IndexSegment.Resolve(indices[|indices| - 1], size);
      IndicesInBounds(init, size) + (if 0 <= j < size then [j] else [])
  }

  function IndexGet(indices: seq<Int32>, items: seq<Basket>): (r: seq<Basket>)
  {
    var positions := IndicesInBounds(indices, |items|);
    seq(|positions|, i requires 0 <= i < |positions| => items[positions[i]])
  }

  /** The strand's update loop: each in-range position is set to the updater applied to the ORIGINAL item there. */
  function ReplaceAt(positions: seq<int>, items: seq<Basket>, u: Updater): (r: seq<Basket>)
    requires forall i | 0 <= i < |positions| :: 0 <= positions[i] < |items|
    ensures |r| == |items|
    ensures forall j | 0 <= j < |items| :: r[j] == if j in positions then u(items[j]) else items[j]
    decreases |positions|
  {
    if |positions| == 0 then items
    else
      var p := positions[|positions| - 1];
      ReplaceAt(positions[..|positions| - 1], items, u)[p := u(items[p])]
  }

  /** The index strand reaches the same items as the index segment's projector. */
  lemma {:induction false} IndexGetAgrees(indices: seq<Int32>, items: seq<Basket>)
    ensures IndexGet(indices, items) == IndexSegment.SelectedItems(indices, items)
    decreases |indices|
  {
    if |indices| > 0 {
      IndexGetAgrees(indices[..|indices| - 1], items);
    }
  }

  // ---- ArraySliceStrand ----

  /** The integers `lo`, `lo + 1`, ..., `hi - 1` (Kotlin's `lo until hi`). */
  function Range(lo: int, hi: int): (r: seq<int>)
    ensures |r| == if lo < hi then hi - lo else 0
    ensures forall i | 0 <= i < |r| :: r[i] == lo + i
  {
    if lo < hi then seq(hi - lo, i requires 0 <= i < hi - lo => lo + i) else []
  }

  /** The source's bound: the index resolved from the end, then clamped into [0, size - 1]. */
  function BoundAsWritten(index: Int32, size: nat): (r: int)
    ensures size > 0 ==> 0 <= r < size
    ensures size == 0 ==> r == -1
  {
    var relative := IndexSegment.Resolve(index, size);
    var atLeastZero := if relative < 0 then 0 else relative;
    if size - 1 < atLeastZero then size - 1 else atLeastZero
  }

  /** The slice's positions as the source computes them; an open end means `size`. */
  function SliceIndicesAsWritten(start: Int32, end: Int32, size: nat): seq<int> {
    Range(BoundAsWritten(start, size), if end == UPPER_UNBOUNDED then size else BoundAsWritten(end, size))
  }

  /** A bound clamped into [0, size], so that an end bound can reach past the last item. */
  function Bound(index: Int32, size: nat): (r: nat)
    ensures r <= size
    ensures 0 <= IndexSegment.Resolve(index, size) <= size ==> r == IndexSegment.Resolve(index, size)
  {
    var relative := IndexSegment.Resolve(index, size);
    if relative < 0 then 0 else if relative > size then size else relative
  }

  /** The slice's positions: every one of them is inside the array. */
  function SliceIndices(start: Int32, end: Int32, size: nat): (r: seq<int>)
    ensures forall i | 0 <= i < |r| :: 0 <= r[i] < size
    ensures Distinct(r)
  {
    Range(Bound(start, size), if end == UPPER_UNBOUNDED then size else Bound(end, size))
  }

  /**
   * As written, a closed end bound at or past the array's size loses the last item, and an
   * empty array gives position -1, which `getItem` rejects.
   */
  lemma SliceAsWrittenDropsLast(a: Basket, b: Basket, c: Basket)
    ensures SliceIndicesAsWritten(0, 3, 3) == [0, 1]
    ensures SliceIndices(0, 3, 3) == [0, 1, 2]
    ensures SliceIndicesAsWritten(0, UPPER_UNBOUNDED, 0) == [-1]
    ensures Baskets.GetItem(ArrayBasket([]), -1) == Err(IndexOutOfBounds(-1))
    ensures SliceIndices(0, UPPER_UNBOUNDED, 0) == []
  {
    assert SliceIndicesAsWritten(0, 3, 3) == Range(0, 2);
  }

  function SliceGet(start: Int32, end: Int32, items: seq<Basket>): seq<Basket> {
    var positions := SliceIndices(start, end, |items|);
    seq(|positions|, i requires 0 <= i < |positions| => items[positions[i]])
  }

  /** The slice update loop: each position set to the updater applied to the CURRENT item there. */
  function UpdateAt(positions: seq<int>, items: seq<Basket>, u: Updater): (r: seq<Basket>)
    requires forall i | 0 <= i < |positions| :: 0 <= positions[i] < |items|
    requires Distinct(positions)
    ensures |r| == |items|
    ensures forall j | 0 <= j < |items| :: r[j] == if j in positions then u(items[j]) else items[j]
    decreases |positions|
  {
    if |positions| == 0 then items
    else
      var p := positions[|positions| - 1];
      var updated := UpdateAt(positions[..|positions| - 1], items, u);
      assert p !in positions[..|positions| - 1];
      updated[p := u(updated[p])]
  }

  /** For arrays of a Kotlin size, the slice strand reaches the same items as the slice segment's projector. */
  lemma SliceGetAgrees(start: Int32, end: Int32, items: seq<Basket>)
    requires |items| <= 0x7fff_ffff
    ensures SliceGet(start, end, items) == SliceSegment.SelectedItems(start, end, items)
  {
    var size := |items|;
    var s := SliceSegment.ActualStart(start, size);
    var e := SliceSegment.ActualEnd(end, size);
    var lo := Bound(start, size);
    var hi := if end == UPPER_UNBOUNDED then size else Bound(end, size);
    assert s < e ==> lo == s && hi == e;
    assert s >= e ==> lo >= hi;
    if s < e {
      assert SliceGet(start, end, items) == items[s..e];
    }
  }

  // ---- KeyStrand ----

  /** The listed keys the object has, in listed order. */
  function KeysInBasket(keys: seq<string>, ps: PropertySet): (r: seq<string>)
    ensures forall k | k in r :: k in ps.properties && k in keys
    ensures forall k | k in keys && k in ps.properties :: k in r
    decreases |keys|
  {
    if |keys| == 0 then []
    else
      var k := keys[|keys| - 1];
      KeysInBasket(keys[..|keys| - 1], ps) + (if k in ps.properties then [k] else [])
  }

  function KeyGet(keys: seq<string>, ps: PropertySet): seq<Basket> {
    var present := KeysInBasket(keys, ps);
    seq(|present|, i requires 0 <= i < |present| => ps.properties[present[i]])
  }

  /** The key strand's update fold over the keys the ORIGINAL object has; each step reads the current value. */
  function KeyUpdate(keys: seq<string>, ps: PropertySet, u: Updater): (r: PropertySet)
    ensures r.properties.Keys == ps.properties.Keys
    decreases |keys|
  {
    if |keys| == 0 then ps
    else
      var p := KeyUpdate(keys[..|keys| - 1], ps, u);
      var k := keys[|keys| - 1];
      if k in ps.properties then PropertySets.With(p, k, u(p.properties[k])) else p
  }

  /** The key strand reaches the listed keys the object has, in listed order, like the key segment's projector. */
  lemma {:induction false} KeyGetAgrees(keys: seq<string>, ps: PropertySet)
    ensures KeyGet(keys, ps) == KeySegment.SelectedValues(keys, ps)
    decreases |keys|
  {
    if |keys| > 0 {
      KeyGetAgrees(keys[..|keys| - 1], ps);
    }
  }

  /** The key strand's update is the key segment's: only the listed keys the object has change. */
  lemma {:induction false} KeyUpdateAgrees(keys: seq<string>, ps: PropertySet, u: Updater)
    ensures KeyUpdate(keys, ps, u) == KeySegment.UpdateProperties(keys, ps, u)
    decreases |keys|
  {
    if |keys| > 0 {
      KeyUpdateAgrees(keys[..|keys| - 1], ps, u);
      KeySegment.UpdatePropertiesApplies(keys[..|keys| - 1], ps, u, keys[|keys| - 1]);
    }
  }

  // ---- DeepScanStrand ----

  function DeepGet(key: string, b: Basket): seq<Basket>
    decreases b, 1
  {
    match b
    case ArrayBasket(items) => DeepGetItems(key, b, |items|)
    case ObjectBasket(ps) => DeepGetEntries(key, b, |PropertySets.Entries(ps)|)
    case _ => []
  }

  function DeepGetItems(key: string, parent: Basket, n: nat): seq<Basket>
    requires parent.ArrayBasket? && n <= |parent.contents|
    decreases parent, 0, n
  {
    if n == 0 then [] else DeepGetItems(key, parent, n - 1) + DeepGet(key, parent.contents[n - 1])
  }

  function DeepGetEntries(key: string, parent: Basket, n: nat): seq<Basket>
    requires parent.ObjectBasket? && n <= |PropertySets.Entries(parent.properties)|
    decreases parent, 0, n
  {
    if n == 0 then []
    else
      var e := PropertySets.Entries(parent.properties)[n - 1];
      DeepGetEntries(key, parent, n - 1) + (if e.0 == key then [e.1] else DeepGet(key, e.1))
  }

  /** The deep-scan strand reaches exactly what the deep-scan segment projects with the identity continuation. */
  lemma {:induction false} DeepGetAgrees(key: string, b: Basket)
    ensures DeepGet(key, b) == ProjectionResults.Elements(DeepScanSegment.Project(key, Identity(), b))
    decreases b, 1
  {
    match b {
      case ArrayBasket(items) => DeepGetItemsAgree(key, b, |items|);
      case ObjectBasket(ps) => DeepGetEntriesAgree(key, b, |PropertySets.Entries(ps)|);
      case _ =>
    }
  }

  lemma {:induction false} DeepGetItemsAgree(key: string, parent: Basket, n: nat)
    requires parent.ArrayBasket? && n <= |parent.contents|
    ensures DeepGetItems(key, parent, n) == ProjectionResults.Elements(DeepScanSegment.ProjectItems(key, Identity(), parent, n))
    decreases parent, 0, n
  {
    if n > 0 {
      DeepGetItemsAgree(key, parent, n - 1);
      DeepGetAgrees(key, parent.contents[n - 1]);
      DeepScanSegment.ProjectItemsValid(key, Identity(), parent, n - 1);
      DeepScanSegment.ProjectValid(key, Identity(), parent.contents[n - 1]);
      ProjectionResults.AddConcatenates(DeepScanSegment.ProjectItems(key, Identity(), parent, n - 1),
                                        DeepScanSegment.Project(key, Identity(), parent.contents[n - 1]));
    }
  }

  lemma {:induction false} DeepGetEntriesAgree(key: string, parent: Basket, n: nat)
    requires parent.ObjectBasket? && n <= |PropertySets.Entries(parent.properties)|
    ensures DeepGetEntries(key, parent, n) == ProjectionResults.Elements(DeepScanSegment.ProjectEntries(key, Identity(), parent, n))
    decreases parent, 0, n
  {
    if n > 0 {
      var e := PropertySets.Entries(parent.properties)[n - 1];
      DeepGetEntriesAgree(key, parent, n - 1);
      if e.0 != key {
        assert e.1 == parent.properties.properties[e.0];
        DeepGetAgrees(key, e.1);
      }
      DeepGetEntriesStep(key, parent, n);
    }
  }

  /** One more entry: its value when its key matches, otherwise what the scan finds inside it. */
  lemma DeepGetEntriesStep(key: string, parent: Basket, n: nat)
    requires parent.ObjectBasket? && 0 < n <= |PropertySets.Entries(parent.properties)|
    requires DeepGetEntries(key, parent, n - 1) == ProjectionResults.Elements(DeepScanSegment.ProjectEntries(key, Identity(), parent, n - 1))
    requires var e := PropertySets.Entries(parent.properties)[n - 1];
      e.0 != key ==> DeepGet(key, e.1) == ProjectionResults.Elements(DeepScanSegment.Project(key, Identity(), e.1))
    ensures DeepGetEntries(key, parent, n) == ProjectionResults.Elements(DeepScanSegment.ProjectEntries(key, Identity(), parent, n))
  {
    var e := PropertySets.Entries(parent.properties)[n - 1];
    DeepScanSegment.ProjectEntriesValid(key, Identity(), parent, n - 1);
    var last := if e.0 == key then Identity()(e.1) else DeepScanSegment.Project(key, Identity(), e.1);
    if e.0 != key {
      DeepScanSegment.ProjectValid(key, Identity(), e.1);
    }
    ProjectionResults.AddConcatenates(DeepScanSegment.ProjectEntries(key, Identity(), parent, n - 1), last);
  }

  /** A value found under the key is reached whole: the scan does not look inside it. */
  lemma FoundValueIsNotRescanned(key: string, v: Basket)
    ensures DeepGet(key, ObjectBasket(PropertySet([key], map[key := v]))) == [v]
  {
    var b := ObjectBasket(PropertySet([key], map[key := v]));
    assert PropertySets.Entries(b.properties) == [(key, v)];
    assert DeepGetEntries(key, b, 1) == [] + [v];
  }

  // ---- DeepWildcardStrand ----

  /** Every child, followed by everything reached below each child in turn; a scalar reaches itself. */
  function DeepAll(b: Basket): seq<Basket>
    decreases b, 1
  {
    match b
    case ArrayBasket(items) => items + DeepAllItems(b, |items|)
    case ObjectBasket(ps) => PropertySets.ValuesOf(ps) + DeepAllEntries(b, |PropertySets.Entries(ps)|)
    case _ => [b]
  }

  function DeepAllItems(parent: Basket, n: nat): seq<Basket>
    requires parent.ArrayBasket? && n <= |parent.contents|
    decreases parent, 0, n
  {
    if n == 0 then [] else DeepAllItems(parent, n - 1) + DeepAll(parent.contents[n - 1])
  }

  function DeepAllEntries(parent: Basket, n: nat): seq<Basket>
    requires parent.ObjectBasket? && n <= |PropertySets.Entries(parent.properties)|
    decreases parent, 0, n
  {
    if n == 0 then []
    else
      var e := PropertySets.Entries(parent.properties)[n - 1];
      DeepAllEntries(parent, n - 1) + DeepAll(e.1)
  }

  /** Array items are updated below first and then themselves; object values only themselves; a scalar itself. */
  function DeepAllUpdate(b: Basket, u: Updater): Basket
    decreases b
  {
    match b
    case ArrayBasket(items) =>
      ArrayBasket(seq(|items|, i requires 0 <= i < |items| => u(DeepAllUpdate(items[i], u))))
    case ObjectBasket(ps) => ObjectBasket(PropertySets.MapValues(ps, u))
    case _ => u(b)
  }

  // The source's `..*` strand visits a scalar twice (once as a child, once as the `get` of
  // itself) and its update does not go below an object's values. The members below show both
  // on concrete values, then define the evidently intended strand and prove what it promises.

  /** As written, a scalar item is reached twice: once as an item, once below itself. */
  lemma DeepAllRevisitsScalars(x: Basket)
    requires !IsStruct(x)
    ensures DeepAll(ArrayBasket([x])) == [x, x]
  {
    var b := ArrayBasket([x]);
    assert DeepAllItems(b, 1) == DeepAllItems(b, 0) + DeepAll(x) == [x];
  }

  /** The updater that turns every scalar into null and leaves arrays and objects alone. */
  function Nullify(): Updater {
    x => if IsStruct(x) then x else NullBasket
  }

  /** Every scalar inside the value is null. */
  predicate AllNull(b: Basket) {
    match b
    case ArrayBasket(items) => forall i | 0 <= i < |items| :: AllNull(items[i])
    case ObjectBasket(ps) => forall k | k in ps.properties :: AllNull(ps.properties[k])
    case _ => b == NullBasket
  }

  /** As written, the update does not reach a scalar nested in an object value that `get` does reach. */
  lemma DeepAllUpdateSkipsNestedValues()
    ensures var inner := ObjectBasket(PropertySet(["b"], map["b" := TrueBasket]));
      var b := ObjectBasket(PropertySet(["a"], map["a" := inner]));
      && TrueBasket in DeepAll(b)
      && DeepAllUpdate(b, Nullify()) == b
      && !AllNull(DeepAllUpdate(b, Nullify()))
  {
    var inner := ObjectBasket(PropertySet(["b"], map["b" := TrueBasket]));
    var b := ObjectBasket(PropertySet(["a"], map["a" := inner]));
    assert PropertySets.Entries(inner.properties) == [("b", TrueBasket)];
    assert PropertySets.Entries(b.properties) == [("a", inner)];
    assert DeepAllEntries(inner, 1) == [TrueBasket];
    assert DeepAll(inner) == [TrueBasket, TrueBasket];
    assert DeepAllEntries(b, 1) == DeepAll(inner);
    assert DeepAll(b) == [inner, TrueBasket, TrueBasket];
    PropertySets.MapValuesKeepsKeys(b.properties, Nullify());
    var m := PropertySets.MapValues(b.properties, Nullify());
    assert m.keys == ["a"];
    assert PropertySets.Get(m, "a") == Some(inner);
    assert m.properties == map["a" := inner];
  }

  /** What lies below a value, each exactly once: the children, then what lies below each child. */
  function Below(b: Basket): seq<Basket>
    decreases b, 1
  {
    match b
    case ArrayBasket(items) => items + BelowItems(b, |items|)
    case ObjectBasket(ps) => PropertySets.ValuesOf(ps) + BelowEntries(b, |PropertySets.Entries(ps)|)
    case _ => []
  }

  function BelowItems(parent: Basket, n: nat): seq<Basket>
    requires parent.ArrayBasket? && n <= |parent.contents|
    decreases parent, 0, n
  {
    if n == 0 then [] else BelowItems(parent, n - 1) + Below(parent.contents[n - 1])
  }

  function BelowEntries(parent: Basket, n: nat): seq<Basket>
    requires parent.ObjectBasket? && n <= |PropertySets.Entries(parent.properties)|
    decreases parent, 0, n
  {
    if n == 0 then []
    else BelowEntries(parent, n - 1) + Below(PropertySets.Entries(parent.properties)[n - 1].1)
  }

  /** The intended `..*` get: everything below a container, and a scalar at the root itself. */
  function DeepAllCorrected(b: Basket): seq<Basket> {
    if IsStruct(b) then Below(b) else [b]
  }

  /** The number of values in a tree: the value itself and everything inside it. */
  function Size(b: Basket): nat
    decreases b, 1
  {
    match b
    case ArrayBasket(items) => 1 + SizeItems(b, |items|)
    case ObjectBasket(ps) => 1 + SizeEntries(b, |PropertySets.Entries(ps)|)
    case _ => 1
  }

  function SizeItems(parent: Basket, n: nat): nat
    requires parent.ArrayBasket? && n <= |parent.contents|
    decreases parent, 0, n
  {
    if n == 0 then 0 else SizeItems(parent, n - 1) + Size(parent.contents[n - 1])
  }

  function SizeEntries(parent: Basket, n: nat): nat
    requires parent.ObjectBasket? && n <= |PropertySets.Entries(parent.properties)|
    decreases parent, 0, n
  {
    if n == 0 then 0
    else SizeEntries(parent, n - 1) + Size(PropertySets.Entries(parent.properties)[n - 1].1)
  }

  /** The intended get reaches as many values as lie strictly inside the tree: none is reached twice. */
  lemma {:induction false} BelowCountsEachOnce(b: Basket)
    ensures |Below(b)| == Size(b) - 1
    decreases b, 1
  {
    match b
    case ArrayBasket(items) => BelowItemsCount(b, |items|);
    case ObjectBasket(ps) => BelowEntriesCount(b, |PropertySets.Entries(ps)|);
    case _ =>
  }

  lemma {:induction false} BelowItemsCount(parent: Basket, n: nat)
    requires parent.ArrayBasket? && n <= |parent.contents|
    ensures |BelowItems(parent, n)| + n == SizeItems(parent, n)
    decreases parent, 0, n
  {
    if n > 0 {
      BelowItemsCount(parent, n - 1);
      BelowCountsEachOnce(parent.contents[n - 1]);
    }
  }

  lemma {:induction false} BelowEntriesCount(parent: Basket, n: nat)
    requires parent.ObjectBasket? && n <= |PropertySets.Entries(parent.properties)|
    ensures |BelowEntries(parent, n)| + n == SizeEntries(parent, n)
    decreases parent, 0, n
  {
    if n > 0 {
      BelowEntriesCount(parent, n - 1);
      BelowCountsEachOnce(PropertySets.Entries(parent.properties)[n - 1].1);
    }
  }

  /** As written, the get of a tree with scalar leaves reaches more values than lie inside it. */
  lemma DeepAllCountsLeavesTwice(x: Basket)
    requires !IsStruct(x)
    ensures |DeepAll(ArrayBasket([x]))| == Size(ArrayBasket([x]))
    ensures |DeepAllCorrected(ArrayBasket([x]))| == Size(ArrayBasket([x])) - 1
  {
    DeepAllRevisitsScalars(x);
    assert SizeItems(ArrayBasket([x]), 1) == 1;
    BelowCountsEachOnce(ArrayBasket([x]));
  }

  /** Every value below `b` updated once, innermost first; `b` itself is left as it is. */
  function UpdateBelow(b: Basket, u: Updater): Basket
    decreases b
  {
    match b
    case ArrayBasket(items) =>
      ArrayBasket(seq(|items|, i requires 0 <= i < |items| => u(UpdateBelow(items[i], u))))
    case ObjectBasket(ps) =>
      ObjectBasket(PropertySet(ps.keys, map k | k in ps.properties :: u(UpdateBelow(ps.properties[k], u))))
    case _ => b
  }

  /**
   * The intended `..*` update, the twin of the intended get: every value below a container is
   * updated exactly once, object values like array items, and a scalar at the root is updated itself.
   */
  function DeepAllUpdateCorrected(b: Basket, u: Updater): Basket {
    if IsStruct(b) then UpdateBelow(b, u) else u(b)
  }

  /** The updaters that leave arrays and objects as they are and turn scalars into scalars, such as the typed updaters. */
  ghost predicate ContainersKept(u: Updater) {
    forall x: Basket :: (IsStruct(x) ==> u(x) == x) && (!IsStruct(x) ==> !IsStruct(u(x)))
  }

  /** `upd` holds, position by position, the values of `orig` each put through the intended `..*` update. */
  predicate UpdatedEach(orig: seq<Basket>, upd: seq<Basket>, u: Updater) {
    |upd| == |orig| && forall i | 0 <= i < |orig| :: upd[i] == DeepAllUpdateCorrected(orig[i], u)
  }

  lemma UpdatedEachAppend(xs: seq<Basket>, ys: seq<Basket>, xs': seq<Basket>, ys': seq<Basket>, u: Updater)
    requires UpdatedEach(xs, xs', u) && UpdatedEach(ys, ys', u)
    ensures UpdatedEach(xs + ys, xs' + ys', u)
  {
    forall i | 0 <= i < |xs + ys| ensures (xs' + ys')[i] == DeepAllUpdateCorrected((xs + ys)[i], u) {
      if i < |xs| {
        assert (xs' + ys')[i] == xs'[i] && (xs + ys)[i] == xs[i];
      } else {
        assert (xs' + ys')[i] == ys'[i - |xs|] && (xs + ys)[i] == ys[i - |xs|];
      }
    }
  }

  /** Two maps with the same keys give entries with the same keys, in the same order. */
  lemma {:induction false} EntriesOfSameKeys(keys: seq<string>, props: map<string, Basket>, props': map<string, Basket>)
    requires props'.Keys == props.Keys
    ensures |PropertySets.EntriesOf(keys, props')| == |PropertySets.EntriesOf(keys, props)|
    ensures forall i | 0 <= i < |PropertySets.EntriesOf(keys, props)| ::
      PropertySets.EntriesOf(keys, props')[i].0 == PropertySets.EntriesOf(keys, props)[i].0
    decreases |keys|
  {
    if |keys| > 0 {
      EntriesOfSameKeys(keys[..|keys| - 1], props, props');
    }
  }

  /** A child of a container, after the intended update below the container, is that child put through the intended update. */
  lemma ChildUpdatedOnce(c: Basket, u: Updater)
    requires ContainersKept(u)
    ensures u(UpdateBelow(c, u)) == DeepAllUpdateCorrected(c, u)
    ensures IsStruct(c) <==> IsStruct(DeepAllUpdateCorrected(c, u))
  {
    if IsStruct(c) {
      assert IsStruct(UpdateBelow(c, u));
    }
  }

  /**
   * The intended update below a container reaches, position by position, the values the intended
   * get reaches, and puts each through the intended update: a scalar is updated once, a container
   * has everything inside it updated once.
   */
  lemma {:induction false} UpdateBelowReachesOnce(b: Basket, u: Updater)
    requires ContainersKept(u)
    ensures UpdatedEach(Below(b), Below(UpdateBelow(b, u)), u)
    decreases b, 1
  {
    var r := UpdateBelow(b, u);
    match b
    case ArrayBasket(items) =>
      forall i | 0 <= i < |items| ensures r.contents[i] == DeepAllUpdateCorrected(items[i], u) {
        ChildUpdatedOnce(items[i], u);
      }
      UpdateBelowItems(b, u, |items|);
      UpdatedEachAppend(items, BelowItems(b, |items|), r.contents, BelowItems(r, |items|), u);
    case ObjectBasket(ps) =>
      var es, es' := PropertySets.Entries(ps), PropertySets.Entries(r.properties);
      EntriesOfSameKeys(ps.keys, ps.properties, r.properties.properties);
      forall i | 0 <= i < |es| ensures PropertySets.ValuesOf(r.properties)[i] == DeepAllUpdateCorrected(PropertySets.ValuesOf(ps)[i], u) {
        ChildUpdatedOnce(es[i].1, u);
      }
      UpdateBelowEntries(b, u, |es|);
      UpdatedEachAppend(PropertySets.ValuesOf(ps), BelowEntries(b, |es|), PropertySets.ValuesOf(r.properties), BelowEntries(r, |es|), u);
    case _ =>
  }

  lemma {:induction false} UpdateBelowItems(b: Basket, u: Updater, n: nat)
    requires ContainersKept(u) && b.ArrayBasket? && n <= |b.contents|
    ensures UpdatedEach(BelowItems(b, n), BelowItems(UpdateBelow(b, u), n), u)
    decreases b, 0, n
  {
    if n > 0 {
      var r := UpdateBelow(b, u);
      var c := b.contents[n - 1];
      UpdateBelowItems(b, u, n - 1);
      ChildUpdatedOnce(c, u);
      if IsStruct(c) {
        UpdateBelowReachesOnce(c, u);
      }
      UpdatedEachAppend(BelowItems(b, n - 1), Below(c), BelowItems(r, n - 1), Below(r.contents[n - 1]), u);
    }
  }

  lemma {:induction false} UpdateBelowEntries(b: Basket, u: Updater, n: nat)
    requires ContainersKept(u) && b.ObjectBasket? && n <= |PropertySets.Entries(b.properties)|
    ensures UpdateBelow(b, u).ObjectBasket? && n <= |PropertySets.Entries(UpdateBelow(b, u).properties)|
    ensures UpdatedEach(BelowEntries(b, n), BelowEntries(UpdateBelow(b, u), n), u)
    decreases b, 0, n
  {
    var r := UpdateBelow(b, u);
    EntriesOfSameKeys(b.properties.keys, b.properties.properties, r.properties.properties);
    if n > 0 {
      var c := PropertySets.Entries(b.properties)[n - 1].1;
      UpdateBelowEntries(b, u, n - 1);
      ChildUpdatedOnce(c, u);
      if IsStruct(c) {
        UpdateBelowReachesOnce(c, u);
      }
      UpdatedEachAppend(BelowEntries(b, n - 1), Below(c), BelowEntries(r, n - 1), Below(PropertySets.Entries(r.properties)[n - 1].1), u);
    }
  }

  /** The intended update reaches every scalar, however deep: nulling them all leaves no other scalar. */
  lemma {:induction false} DeepAllUpdateReachesEveryScalar(b: Basket)
    ensures AllNull(DeepAllUpdateCorrected(b, Nullify()))
    decreases b
  {
    match b
    case ArrayBasket(items) =>
      forall i | 0 <= i < |items|
        ensures AllNull(Nullify()(UpdateBelow(items[i], Nullify())))
      {
        DeepAllUpdateReachesEveryScalar(items[i]);
      }
    case ObjectBasket(ps) =>
      forall k | k in ps.properties
        ensures AllNull(Nullify()(UpdateBelow(ps.properties[k], Nullify())))
      {
        DeepAllUpdateReachesEveryScalar(ps.properties[k]);
      }
    case _ =>
  }

  /**
   * The intended update applies the updater once to each value the intended get reaches: an
   * array of scalars has each item updated once, and for an updater that keeps containers,
   * getting after updating gives, in order, each value got before put through the update.
   */
  lemma DeepAllUpdateOnce(b: Basket, u: Updater)
    ensures b.ArrayBasket? && (forall i | 0 <= i < |b.contents| :: !IsStruct(b.contents[i])) ==>
      DeepAllUpdateCorrected(b, u) == ArrayBasket(seq(|b.contents|, i requires 0 <= i < |b.contents| => u(b.contents[i])))
    ensures ContainersKept(u) ==> UpdatedEach(DeepAllCorrected(b), DeepAllCorrected(DeepAllUpdateCorrected(b, u)), u)
  {
    if b.ArrayBasket? && (forall i | 0 <= i < |b.contents| :: !IsStruct(b.contents[i])) {
      forall i | 0 <= i < |b.contents| ensures UpdateBelow(b.contents[i], u) == b.contents[i] {
      }
    }
    if ContainersKept(u) {
      if IsStruct(b) {
        UpdateBelowReachesOnce(b, u);
        assert IsStruct(UpdateBelow(b, u));
      } else {
        assert !IsStruct(u(b));
      }
    }
  }

  /** The updater that swaps true and false and leaves everything else alone; applied twice it changes nothing. */
  function Negate(): Updater {
    x => if x == TrueBasket then FalseBasket else if x == FalseBasket then TrueBasket else x
  }

  /**
   * As written, a scalar array item is updated twice: once by the recursive `update` of the scalar
   * and once more by the array case. With the negating updater `[true]` comes back unchanged.
   * The intended update applies the updater once.
   */
  lemma DeepAllUpdateTwice(x: Basket, u: Updater)
    requires !IsStruct(x)
    ensures DeepAllUpdate(ArrayBasket([x]), u) == ArrayBasket([u(u(x))])
    ensures DeepAllUpdateCorrected(ArrayBasket([x]), u) == ArrayBasket([u(x)])
    ensures DeepAllUpdate(ArrayBasket([TrueBasket]), Negate()) == ArrayBasket([TrueBasket])
    ensures DeepAllUpdateCorrected(ArrayBasket([TrueBasket]), Negate()) == ArrayBasket([FalseBasket])
    ensures ContainersKept(Negate())
  {
    assert DeepAllUpdate(x, u) == u(x) && UpdateBelow(x, u) == x;
    var written, corrected := DeepAllUpdate(ArrayBasket([x]), u), DeepAllUpdateCorrected(ArrayBasket([x]), u);
    assert |written.contents| == 1 && written.contents[0] == u(u(x));
    assert written.contents == [u(u(x))];
    assert |corrected.contents| == 1 && corrected.contents[0] == u(x);
    assert corrected.contents == [u(x)];
    assert DeepAllUpdate(ArrayBasket([TrueBasket]), Negate()).contents == [TrueBasket];
    assert DeepAllUpdateCorrected(ArrayBasket([TrueBasket]), Negate()).contents == [FalseBasket];
  }

  // ---- All strands ----

  /** `get`: the values the strand reaches, in order. */
  function Get(s: Strand, b: Basket): seq<Basket>
    decreases s
  {
    match s
    case RootStrand => [b]
    case ComposedStrand(first, second) => FlatMap(Get(first, b), x => Get(second, x))
    case IndexStrand(indices) => if b.ArrayBasket? then IndexGet(indices, b.contents) else []
    case KeyStrand(keys) => if b.ObjectBasket? then KeyGet(keys, b.properties) else []
    case ArraySliceStrand(start, end) => if b.ArrayBasket? then SliceGet(start, end, b.contents) else []
    case ConditionalStrand(test) =>
      if IsStruct(b) then MatchingSegment.Filter(Children(b), test) else if test(b) then [b] else []
    case DeepScanStrand(key) => DeepGet(key, b)
    case WildcardStrand => if IsStruct(b) then Children(b) else [b]
    case DeepWildcardStrand => DeepAllCorrected(b)
  }

  /** `update`: the basket with every value the strand reaches rewritten by `u`. */
  function Update(s: Strand, b: Basket, u: Updater): Basket
    decreases s
  {
    match s
    case RootStrand => u(b)
    case ComposedStrand(first, second) => Update(first, b, x => Update(second, x, u))
    case IndexStrand(indices) =>
      if b.ArrayBasket? then ArrayBasket(ReplaceAt(IndicesInBounds(indices, |b.contents|), b.contents, u)) else b
    case KeyStrand(keys) => if b.ObjectBasket? then ObjectBasket(KeyUpdate(keys, b.properties, u)) else b
    case ArraySliceStrand(start, end) =>
      if b.ArrayBasket? then ArrayBasket(UpdateAt(SliceIndices(start, end, |b.contents|), b.contents, u)) else b
    case ConditionalStrand(test) =>
      (match b
       case ArrayBasket(items) => ArrayBasket(MatchingSegment.UpdateItems(items, test, u))
       case ObjectBasket(ps) => ObjectBasket(MatchingSegment.UpdateObject(ps, test, u))
       case _ => if test(b) then u(b) else b)
    case DeepScanStrand(key) => DeepScanSegment.Update(key, u, b)
    case WildcardStrand =>
      (match b
       case ArrayBasket(items) => ArrayBasket(ProjectionResults.MapSeq(items, u))
       case ObjectBasket(ps) => ObjectBasket(PropertySets.MapValues(ps, u))
       case _ => u(b))
    case DeepWildcardStrand => DeepAllUpdateCorrected(b, u)
  }

  /** `set`: the update that replaces every reached value by `v`. */
  function Set(s: Strand, b: Basket, v: Basket): Basket {
    Update(s, b, x => v)
  }

  /** `getSingle`: the one value reached, or the exception Kotlin's `Sequence.single()` throws. */
  function GetSingle(s: Strand, b: Basket): (r: Result<Basket>)
    ensures r.Ok? <==> |Get(s, b)| == 1
    ensures r.Ok? ==> Get(s, b) == [r.value]
    ensures |Get(s, b)| == 0 ==> r == Err(NoSuchElement("Sequence is empty."))
    ensures |Get(s, b)| > 1 ==> r == Err(IllegalArgument("Sequence has more than one element."))
  {
    var values := Get(s, b);
    if |values| == 0 then Err(NoSuchElement("Sequence is empty."))
    else if |values| > 1 then Err(IllegalArgument("Sequence has more than one element."))
    else Ok(values[0])
  }

  // ---- Laws ----

  /** The root strand reaches the basket itself and applies the updater to it once. */
  lemma RootIsUnit(s: Strand, b: Basket, u: Updater)
    ensures Get(ComposedStrand(RootStrand, s), b) == Get(s, b)
    ensures Get(ComposedStrand(s, RootStrand), b) == Get(s, b)
    ensures Update(ComposedStrand(RootStrand, s), b, u) == Update(s, b, u)
  {
    var g := x => Get(s, x);
    assert FlatMap([b], g) == FlatMap([b][..0], g) + g(b);
    FlatMapCongruence(Get(s, b), x => Get(RootStrand, x), x => [x]);
    FlatMapUnit(Get(s, b));
  }

  /** Composition of strands is associative for `get`. */
  lemma ComposeAssociative(s: Strand, t: Strand, w: Strand, b: Basket)
    ensures Get(ComposedStrand(ComposedStrand(s, t), w), b) == Get(ComposedStrand(s, ComposedStrand(t, w)), b)
  {
    var xs := Get(s, b);
    var gt := (x: Basket) => Get(t, x);
    var gw := (y: Basket) => Get(w, y);
    var gtw := (x: Basket) => Get(ComposedStrand(t, w), x);
    var inner := (x: Basket) => FlatMap(gt(x), gw);
    GetComposed(s, t, b);
    GetComposed(ComposedStrand(s, t), w, b);
    assert Get(ComposedStrand(ComposedStrand(s, t), w), b) == FlatMap(FlatMap(xs, gt), gw);
    FlatMapAssociative(xs, gt, gw, inner);
    assert FlatMap(FlatMap(xs, gt), gw) == FlatMap(xs, inner);
    forall i | 0 <= i < |xs|
      ensures inner(xs[i]) == gtw(xs[i])
    {
      GetComposed(t, w, xs[i]);
    }
    FlatMapCongruence(xs, inner, gtw);
    GetComposed(s, ComposedStrand(t, w), b);
    assert Get(ComposedStrand(s, ComposedStrand(t, w)), b) == FlatMap(xs, gtw);
  }

  lemma GetComposed(s: Strand, t: Strand, b: Basket)
    ensures Get(ComposedStrand(s, t), b) == FlatMap(Get(s, b), x => Get(t, x))
  {
  }

  /**
   * The index strand: negative indices count from the end and out-of-range ones are dropped;
   * the update sets each named item to the updater applied to its original value (once, however
   * often it is named), keeps the length and leaves the other items; a non-array gives nothing
   * and is not changed.
   */
  lemma IndexStrandLaws(indices: seq<Int32>, b: Basket, u: Updater)
    ensures b.ArrayBasket? ==> Get(IndexStrand(indices), b) == IndexSegment.SelectedItems(indices, b.contents)
    ensures b.ArrayBasket? ==>
      var r := Update(IndexStrand(indices), b, u).contents;
      && |r| == |b.contents|
      && forall j | 0 <= j < |b.contents| ::
           r[j] == if j in IndexSegment.ResolvedIndices(indices, |b.contents|) then u(b.contents[j]) else b.contents[j]
    ensures !b.ArrayBasket? ==> Get(IndexStrand(indices), b) == [] && Update(IndexStrand(indices), b, u) == b
  {
    if b.ArrayBasket? {
      IndexGetAgrees(indices, b.contents);
    }
  }

  /**
   * The key strand reaches the listed keys the object has, in listed order; its update keeps the
   * key order and changes only those keys (a key listed n times is updated n times).
   */
  lemma KeyStrandLaws(keys: seq<string>, ps: PropertySet, u: Updater, k: string)
    ensures Get(KeyStrand(keys), ObjectBasket(ps)) == KeySegment.SelectedValues(keys, ps)
    ensures Update(KeyStrand(keys), ObjectBasket(ps), u).properties.keys == ps.keys
    ensures PropertySets.Get(Update(KeyStrand(keys), ObjectBasket(ps), u).properties, k) ==
      if k in ps.properties then Some(ApplyN(u, Count(keys, k), ps.properties[k])) else None
  {
    KeyGetAgrees(keys, ps);
    KeyUpdateAgrees(keys, ps, u);
    KeySegment.UpdatePropertiesApplies(keys, ps, u, k);
  }

  /**
   * The slice strand reaches the same items as the slice segment; its update applies `u` once to
   * each of those positions, keeps the length and leaves every other item.
   */
  lemma SliceStrandLaws(start: Int32, end: Int32, items: seq<Basket>, u: Updater)
    requires |items| <= 0x7fff_ffff
    ensures Get(ArraySliceStrand(start, end), ArrayBasket(items)) == SliceSegment.SelectedItems(start, end, items)
    ensures var r := Update(ArraySliceStrand(start, end), ArrayBasket(items), u).contents;
      && |r| == |items|
      && forall j | 0 <= j < |items| ::
           r[j] == if j in SliceIndices(start, end, |items|) then u(items[j]) else items[j]
  {
    SliceGetAgrees(start, end, items);
  }

  /**
   * The conditional strand tests a scalar itself; on an array or object it keeps the children
   * that satisfy the predicate, in order, like the item-matching segment.
   */
  lemma ConditionalStrandLaws(test: Basket -> bool, b: Basket, u: Updater)
    ensures !IsStruct(b) ==> Get(ConditionalStrand(test), b) == (if test(b) then [b] else [])
    ensures !IsStruct(b) ==> Update(ConditionalStrand(test), b, u) == (if test(b) then u(b) else b)
    ensures IsStruct(b) ==>
      Get(ConditionalStrand(test), b) == ProjectionResults.Elements(MatchingSegment.Project(test, Identity(), b))
    ensures IsStruct(b) ==> Update(ConditionalStrand(test), b, u) == MatchingSegment.Update(test, u, b)
  {
    var s := ConditionalStrand(test);
    if IsStruct(b) {
      var selected := MatchingSegment.Filter(Children(b), test);
      assert Get(s, b) == selected;
      IdentityFlattens(selected);
    }
  }

  /**
   * The wildcard strand reaches a scalar itself and rewrites it; on an array or object it reaches
   * every child in order and updates like the wildcard segment.
   */
  lemma WildcardStrandLaws(b: Basket, u: Updater)
    ensures !IsStruct(b) ==> Get(WildcardStrand, b) == [b] && Update(WildcardStrand, b, u) == u(b)
    ensures IsStruct(b) ==>
      Get(WildcardStrand, b) == ProjectionResults.Elements(WildcardSegment.Project(Identity(), b))
    ensures IsStruct(b) ==> Update(WildcardStrand, b, u) == WildcardSegment.Update(u, b)
  {
    if IsStruct(b) {
      assert Get(WildcardStrand, b) == Children(b);
      IdentityFlattens(Children(b));
    }
  }

  /**
   * The `..*` strand first reaches what the wildcard strand reaches, then everything further
   * down, each value once; at a scalar it acts like the root strand.
   */
  lemma DeepWildcardStrandLaws(b: Basket, u: Updater)
    ensures !IsStruct(b) ==> Get(DeepWildcardStrand, b) == [b] && Update(DeepWildcardStrand, b, u) == u(b)
    ensures IsStruct(b) ==>
      && Get(WildcardStrand, b) <= Get(DeepWildcardStrand, b)
      && |Get(DeepWildcardStrand, b)| == Size(b) - 1
    ensures b.ArrayBasket? && (forall i | 0 <= i < |b.contents| :: !IsStruct(b.contents[i])) ==>
      Update(DeepWildcardStrand, b, u) == ArrayBasket(seq(|b.contents|, i requires 0 <= i < |b.contents| => u(b.contents[i])))
    ensures ContainersKept(u) ==>
      UpdatedEach(Get(DeepWildcardStrand, b), Get(DeepWildcardStrand, Update(DeepWildcardStrand, b, u)), u)
  {
    var r := Update(DeepWildcardStrand, b, u);
    DeepWildcardGetUpdate(b, u);
    DeepWildcardGetUpdate(r, u);
    if IsStruct(b) {
      BelowCountsEachOnce(b);
    }
    DeepAllUpdateOnce(b, u);
  }

  /** The `..*` strand's get and update are the intended ones. */
  lemma DeepWildcardGetUpdate(b: Basket, u: Updater)
    ensures Get(DeepWildcardStrand, b) == DeepAllCorrected(b)
    ensures Update(DeepWildcardStrand, b, u) == DeepAllUpdateCorrected(b, u)
  {
  }

  /** The deep-scan strand reaches what the deep-scan segment projects and updates alike. */
  lemma DeepScanStrandLaws(key: string, b: Basket, u: Updater)
    ensures Get(DeepScanStrand(key), b) == ProjectionResults.Elements(DeepScanSegment.Project(key, Identity(), b))
    ensures Update(DeepScanStrand(key), b, u) == DeepScanSegment.Update(key, u, b)
  {
    DeepGetAgrees(key, b);
  }

  /** Setting one present key and reading it back gives the new value alone. */
  lemma SetThenGetKey(key: string, ps: PropertySet, v: Basket)
    requires key in ps.properties
    ensures Get(KeyStrand([key]), Set(KeyStrand([key]), ObjectBasket(ps), v)) == [v]
    ensures GetSingle(KeyStrand([key]), Set(KeyStrand([key]), ObjectBasket(ps), v)) == Ok(v)
  {
    assert [key][..0] == [];
    var updated := KeyUpdate([key], ps, x => v);
    assert PropertySets.Get(updated, key) == Some(v);
    assert KeysInBasket([key], updated) == [key];
  }
}
