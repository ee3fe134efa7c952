/**
 * The `[?]` segment: selects the array items or object values that satisfy a predicate.
 * It is the only conditional segment: while streaming it cannot be matched by index or key,
 * and it instead supplies item projectors and updaters that test each value as it completes.
 */
module MatchingSegment {
  import opened Outcomes
  import opened Values
  import opened ProjectionResults
  import opened Segments
  import PropertySets

  /** The items that satisfy the predicate, each as often as it occurs, in their original order. */
  function Filter(xs: seq<Basket>, test: Basket -> bool): (r: seq<Basket>)
    ensures |r| <= |xs|
    ensures forall x | x in r :: x in xs && test(x)
    decreases |xs|
  {
    if |xs| == 0 then []
    else Filter(xs[..|xs| - 1], test) + (if test(xs[|xs| - 1]) then [xs[|xs| - 1]] else [])
  }

  /** Every item that satisfies the predicate is kept, as many times as it occurs; no other item is. */
  lemma {:induction false} FilterCounts(xs: seq<Basket>, test: Basket -> bool)
    ensures forall x :: multiset(Filter(xs, test))[x] == if test(x) then multiset(xs)[x] else 0
    decreases |xs|
  {
    if |xs| > 0 {
      var init, last := xs[..|xs| - 1], xs[|xs| - 1];
      assert xs == init + [last];
      FilterCounts(init, test);
      var kept := if test(last) then [last] else [];
      assert multiset(Filter(xs, test)) == multiset(Filter(init, test)) + multiset(kept);
    }
  }

  /** Filtering keeps order: the items kept from a concatenation are those kept from each part, in turn. */
  lemma {:induction false} FilterAppend(xs: seq<Basket>, ys: seq<Basket>, test: Basket -> bool)
    ensures Filter(xs + ys, test) == Filter(xs, test) + Filter(ys, test)
    decreases |ys|
  {
    if |ys| > 0 {
      var init, last := ys[..|ys| - 1], ys[|ys| - 1];
      var kept := if test(last) then [last] else [];
      assert (xs + ys)[..|xs + ys| - 1] == xs + init;
      assert (xs + ys)[|xs + ys| - 1] == last;
      assert Filter(xs + ys, test) == Filter(xs + init, test) + kept;
      assert Filter(ys, test) == Filter(init, test) + kept;
      FilterAppend(xs, init, test);
      assert Filter(xs, test) + Filter(init, test) + kept == Filter(xs, test) + (Filter(init, test) + kept);
    } else {
      assert xs + ys == xs;
    }
  }

  /** The projector: the items or values that pass the predicate, through the continuation; a scalar has none. */
  function Project(test: Basket -> bool, cont: Projector, b: Basket): (r: ProjectionResult<Basket>)
    ensures !IsStruct(b) ==> r == EmptyResult
  {
    AddAll(Filter(Children(b), test), cont)
  }

  /** The projector's loop over array items or object values. */
  method ProjectMatching(xs: seq<Basket>, test: Basket -> bool, cont: Projector) returns (result: ProjectionResult<Basket>)
    ensures result == AddAll(Filter(xs, test), cont)
  {
    result := EmptyResult;
    for i := 0 to |xs|
      invariant result == AddAll(Filter(xs[..i], test), cont)
    {
      var prefix := xs[..i + 1];
      assert prefix[..i] == xs[..i] && prefix[i] == xs[i];
      var selected := Filter(xs[..i], test);
      if test(xs[i]) {
        assert Filter(prefix, test) == selected + [xs[i]];
        AddAllSnoc(selected, xs[i], cont);
        result := Add(result, cont(xs[i]));
      } else {
        assert Filter(prefix, test) == selected;
      }
    }
    assert xs[..|xs|] == xs;
  }

  /** Each array item that satisfies the predicate is replaced by the continuation's result. */
  function UpdateItems(items: seq<Basket>, test: Basket -> bool, cont: Updater): (r: seq<Basket>)
    ensures |r| == |items|
    ensures forall i | 0 <= i < |items| :: r[i] == if test(items[i]) then cont(items[i]) else items[i]
  {
    seq(|items|, i requires 0 <= i < |items| => if test(items[i]) then cont(items[i]) else items[i])
  }

  method UpdateArray(items: seq<Basket>, test: Basket -> bool, cont: Updater) returns (updated: seq<Basket>)
    ensures updated == UpdateItems(items, test, cont)
  {
    updated := items;
    for i := 0 to |items|
      invariant |updated| == |items|
      invariant forall j | 0 <= j < |items| :: updated[j] == if j < i && test(items[j]) then cont(items[j]) else items[j]
    {
      var item := items[i];
      if test(item) {
        updated := updated[i := cont(item)];
      }
    }
  }

  /** The first `n` entries of the original object tested, and those that match set to the continuation's result. */
  function UpdateEntries(ps: PropertySet, test: Basket -> bool, cont: Updater, n: nat): PropertySet
    requires n <= |PropertySets.Entries(ps)|
  {
    if n == 0 then ps
    else
      var updated := UpdateEntries(ps, test, cont, n - 1);
      var e := PropertySets.Entries(ps)[n - 1];
      if test(e.1) then PropertySets.With(updated, e.0, cont(e.1)) else updated
  }

  function UpdateObject(ps: PropertySet, test: Basket -> bool, cont: Updater): PropertySet {
    UpdateEntries(ps, test, cont, |PropertySets.Entries(ps)|)
  }

  /** The updater: the items or values that pass the predicate through the continuation; a scalar is kept. */
  function Update(test: Basket -> bool, cont: Updater, b: Basket): (r: Basket)
    ensures !IsStruct(b) ==> r == b
  {
    match b
    case ArrayBasket(items) => ArrayBasket(UpdateItems(items, test, cont))
    case ObjectBasket(ps) => ObjectBasket(UpdateObject(ps, test, cont))
    case _ => b
  }

  method UpdateProperties(ps: PropertySet, test: Basket -> bool, cont: Updater) returns (updated: PropertySet)
    ensures updated == UpdateObject(ps, test, cont)
  {
    var es := PropertySets.Entries(ps);
    updated := ps;
    for i := 0 to |es|
      invariant updated == UpdateEntries(ps, test, cont, i)
    {
      if test(es[i].1) {
        updated := PropertySets.With(updated, es[i].0, cont(es[i].1));
      }
    }
  }

  /** The object updater keeps the keys in order; each value that matches becomes the continuation's result. */
  lemma {:induction false} UpdateEntriesApplies(ps: PropertySet, test: Basket -> bool, cont: Updater, n: nat, k: string)
    requires ValidProperties(ps) && n <= |PropertySets.Entries(ps)|
    ensures UpdateEntries(ps, test, cont, n).keys == ps.keys
    ensures PropertySets.Get(UpdateEntries(ps, test, cont, n), k) ==
      if k !in ps.properties then None
      else if k in ps.keys[..n] && test(ps.properties[k]) then Some(cont(ps.properties[k]))
      else Some(ps.properties[k])
  {
    if n > 0 {
      UpdateEntriesApplies(ps, test, cont, n - 1, k);
      var e := PropertySets.Entries(ps)[n - 1];
      UpdateEntriesApplies(ps, test, cont, n - 1, e.0);
      assert e.0 == ps.keys[n - 1];
      assert ps.keys[..n] == ps.keys[..n - 1] + [ps.keys[n - 1]];
      if k in ps.keys[..n - 1] {
        assert k != e.0;
      }
    }
  }
}
