/**
 * The `..key` segment: finds the values of `key` at any depth. A value found under `key` goes to
 * the continuation and is not scanned further; every other value is scanned recursively.
 */
module DeepScanSegment {
  import opened Outcomes
  import opened Values
  import opened ProjectionResults
  import opened Segments
  import PropertySets

  /** The projector: values under the key go to the continuation, everything else is scanned; a scalar has none. */
  function Project(key: string, cont: Projector, b: Basket): (r: ProjectionResult<Basket>)
    ensures !IsStruct(b) ==> r == EmptyResult
    decreases b, 1
  {
    match b
    case ArrayBasket(items) => ProjectItems(key, cont, b, |items|)
    case ObjectBasket(ps) => ProjectEntries(key, cont, b, |PropertySets.Entries(ps)|)
    case _ => EmptyResult
  }

  /** The projection of the first `n` items of an array. */
  function ProjectItems(key: string, cont: Projector, parent: Basket, n: nat): ProjectionResult<Basket>
    requires parent.ArrayBasket? && n <= |parent.contents|
    decreases parent, 0, n
  {
    if n == 0 then EmptyResult
    else Add(ProjectItems(key, cont, parent, n - 1), Project(key, cont, parent.contents[n - 1]))
  }

  /** The projection of the first `n` entries of an object. */
  function ProjectEntries(key: string, cont: Projector, parent: Basket, n: nat): ProjectionResult<Basket>
    requires parent.ObjectBasket? && n <= |PropertySets.Entries(parent.properties)|
    decreases parent, 0, n
  {
    if n == 0 then EmptyResult
    else
      var e := PropertySets.Entries(parent.properties)[n - 1];
      Add(ProjectEntries(key, cont, parent, n - 1), if e.0 == key then cont(e.1) else Project(key, cont, e.1))
  }

  /** The recursive projector with the source's loops. */
  method ProjectDeep(key: string, cont: Projector, b: Basket) returns (result: ProjectionResult<Basket>)
    ensures result == Project(key, cont, b)
    decreases b
  {
    result := EmptyResult;
    match b {
      case ArrayBasket(items) =>
        for i := 0 to |items|
          invariant result == ProjectItems(key, cont, b, i)
        {
          var inner := ProjectDeep(key, cont, items[i]);
          result := Add(result, inner);
        }
      case ObjectBasket(ps) =>
        var es := PropertySets.Entries(ps);
        for i := 0 to |es|
          invariant result == ProjectEntries(key, cont, b, i)
        {
          if es[i].0 == key {
            result := Add(result, cont(es[i].1));
          } else {
            var inner := ProjectDeep(key, cont, es[i].1);
            result := Add(result, inner);
          }
        }
      case _ =>
    }
  }

  /** The updater: values under the key go through the continuation, everything else is scanned; a scalar is kept. */
  function Update(key: string, cont: Updater, b: Basket): (r: Basket)
    ensures !IsStruct(b) ==> r == b
    decreases b, 1
  {
    match b
    case ArrayBasket(items) => ArrayBasket(UpdateItems(key, cont, b, |items|))
    case ObjectBasket(ps) => ObjectBasket(PropertySets.OfEntries(UpdateEntries(key, cont, b, |PropertySets.Entries(ps)|)))
    case _ => b
  }

  /** The first `n` items of an array, each updated recursively. */
  function UpdateItems(key: string, cont: Updater, parent: Basket, n: nat): (r: seq<Basket>)
    requires parent.ArrayBasket? && n <= |parent.contents|
    ensures |r| == n
    decreases parent, 0, n
  {
    if n == 0 then []
    else UpdateItems(key, cont, parent, n - 1) + [Update(key, cont, parent.contents[n - 1])]
  }

  /** The first `n` entries of an object: under `key` the continuation's result, elsewhere the recursive update. */
  function UpdateEntries(key: string, cont: Updater, parent: Basket, n: nat): (r: seq<(string, Basket)>)
    requires parent.ObjectBasket? && n <= |PropertySets.Entries(parent.properties)|
    ensures |r| == n
    ensures forall i | 0 <= i < n :: r[i].0 == PropertySets.Entries(parent.properties)[i].0
    decreases parent, 0, n
  {
    if n == 0 then []
    else
      var e := PropertySets.Entries(parent.properties)[n - 1];
      UpdateEntries(key, cont, parent, n - 1) + [(e.0, if e.0 == key then cont(e.1) else Update(key, cont, e.1))]
  }

  method UpdateDeep(key: string, cont: Updater, b: Basket) returns (result: Basket)
    ensures result == Update(key, cont, b)
    decreases b
  {
    match b {
      case ArrayBasket(items) =>
        var updated: seq<Basket> := [];
        for i := 0 to |items|
          invariant updated == UpdateItems(key, cont, b, i)
        {
          var inner := UpdateDeep(key, cont, items[i]);
          updated := updated + [inner];
        }
        result := ArrayBasket(updated);
      case ObjectBasket(ps) =>
        var es := PropertySets.Entries(ps);
        var entries: seq<(string, Basket)> := [];
        for i := 0 to |es|
          invariant entries == UpdateEntries(key, cont, b, i)
        {
          if es[i].0 == key {
            entries := entries + [(es[i].0, cont(es[i].1))];
          } else {
            var inner := UpdateDeep(key, cont, es[i].1);
            entries := entries + [(es[i].0, inner)];
          }
        }
        var updatedProperties := PropertySets.Of(entries);
        result := ObjectBasket(updatedProperties);
      case _ =>
        result := b;
    }
  }

  /** Whether some object at any depth of `b` has the property `key`. */
  predicate Mentions(key: string, b: Basket)
    decreases b, 1
  {
    match b
    case ArrayBasket(items) => MentionsItems(key, b, |items|)
    case ObjectBasket(ps) => MentionsEntries(key, b, |PropertySets.Entries(ps)|)
    case _ => false
  }

  predicate MentionsItems(key: string, parent: Basket, n: nat)
    requires parent.ArrayBasket? && n <= |parent.contents|
    decreases parent, 0, n
  {
    n > 0 && (MentionsItems(key, parent, n - 1) || Mentions(key, parent.contents[n - 1]))
  }

  predicate MentionsEntries(key: string, parent: Basket, n: nat)
    requires parent.ObjectBasket? && n <= |PropertySets.Entries(parent.properties)|
    decreases parent, 0, n
  {
    n > 0 &&
      var e := PropertySets.Entries(parent.properties)[n - 1];
      (MentionsEntries(key, parent, n - 1) || e.0 == key || Mentions(key, e.1))
  }

  /** A basket with no property `key` anywhere projects to nothing and is left unchanged by the updater. */
  lemma {:induction false} AbsentKeyIsIdentity(key: string, cont: Updater, p: Projector, b: Basket)
    requires WellFormed(b) && !Mentions(key, b)
    ensures Project(key, p, b) == EmptyResult
    ensures Update(key, cont, b) == b
    decreases b, 1
  {
    match b {
      case ArrayBasket(items) =>
        AbsentKeyItems(key, cont, p, b, |items|);
        assert items[..|items|] == items;
      case ObjectBasket(ps) =>
        AbsentKeyEntries(key, cont, p, b, |PropertySets.Entries(ps)|);
        assert PropertySets.Entries(ps)[..|PropertySets.Entries(ps)|] == PropertySets.Entries(ps);
        PropertySets.EntriesRoundTrip(ps);
      case _ =>
    }
  }

  lemma {:induction false} AbsentKeyItems(key: string, cont: Updater, p: Projector, parent: Basket, n: nat)
    requires parent.ArrayBasket? && n <= |parent.contents|
    requires WellFormed(parent) && !MentionsItems(key, parent, n)
    ensures ProjectItems(key, p, parent, n) == EmptyResult
    ensures UpdateItems(key, cont, parent, n) == parent.contents[..n]
    decreases parent, 0, n
  {
    if n > 0 {
      AbsentKeyItems(key, cont, p, parent, n - 1);
      AbsentKeyIsIdentity(key, cont, p, parent.contents[n - 1]);
      assert parent.contents[..n] == parent.contents[..n - 1] + [parent.contents[n - 1]];
    }
  }

  lemma {:induction false} AbsentKeyEntries(key: string, cont: Updater, p: Projector, parent: Basket, n: nat)
    requires parent.ObjectBasket? && n <= |PropertySets.Entries(parent.properties)|
    requires WellFormed(parent) && !MentionsEntries(key, parent, n)
    ensures ProjectEntries(key, p, parent, n) == EmptyResult
    ensures UpdateEntries(key, cont, parent, n) == PropertySets.Entries(parent.properties)[..n]
    decreases parent, 0, n
  {
    if n > 0 {
      var es := PropertySets.Entries(parent.properties);
      AbsentKeyEntries(key, cont, p, parent, n - 1);
      PropertySets.EntryValue(parent.properties, n - 1);
      AbsentKeyIsIdentity(key, cont, p, es[n - 1].1);
      AbsentKeyProjectStep(key, p, parent, n);
      AbsentKeyUpdateStep(key, cont, parent, n);
    }
  }

  lemma AbsentKeyProjectStep(key: string, p: Projector, parent: Basket, n: nat)
    requires parent.ObjectBasket? && 0 < n <= |PropertySets.Entries(parent.properties)|
    requires ProjectEntries(key, p, parent, n - 1) == EmptyResult
    requires var e := PropertySets.Entries(parent.properties)[n - 1];
      e.0 != key && Project(key, p, e.1) == EmptyResult
    ensures ProjectEntries(key, p, parent, n) == EmptyResult
  {
  }

  lemma AbsentKeyUpdateStep(key: string, cont: Updater, parent: Basket, n: nat)
    requires parent.ObjectBasket? && 0 < n <= |PropertySets.Entries(parent.properties)|
    requires UpdateEntries(key, cont, parent, n - 1) == PropertySets.Entries(parent.properties)[..n - 1]
    requires var e := PropertySets.Entries(parent.properties)[n - 1];
      e.0 != key && Update(key, cont, e.1) == e.1
    ensures UpdateEntries(key, cont, parent, n) == PropertySets.Entries(parent.properties)[..n]
  {
    var es := PropertySets.Entries(parent.properties);
    var e := es[n - 1];
    assert UpdateEntries(key, cont, parent, n) == es[..n - 1] + [(e.0, e.1)];
    assert es[..n] == es[..n - 1] + [e];
  }

  /** A value found under `key` goes to the continuation whole: it is not scanned again, whatever it contains. */
  lemma FoundValueIsNotRescanned(key: string, cont: Projector, u: Updater, v: Basket)
    ensures Project(key, cont, ObjectBasket(PropertySet([key], map[key := v]))) == cont(v)
    ensures Update(key, u, ObjectBasket(PropertySet([key], map[key := v]))) == ObjectBasket(PropertySet([key], map[key := u(v)]))
  {
    FoundValueProjected(key, cont, v);
    FoundValueUpdated(key, u, v);
  }

  lemma FoundValueProjected(key: string, cont: Projector, v: Basket)
    ensures Project(key, cont, ObjectBasket(PropertySet([key], map[key := v]))) == cont(v)
  {
    var b := ObjectBasket(PropertySet([key], map[key := v]));
    assert PropertySets.Entries(b.properties) == [(key, v)];
    assert ProjectEntries(key, cont, b, 1) == Add(EmptyResult, cont(v));
  }

  lemma FoundValueUpdated(key: string, u: Updater, v: Basket)
    ensures Update(key, u, ObjectBasket(PropertySet([key], map[key := v]))) == ObjectBasket(PropertySet([key], map[key := u(v)]))
  {
    var b := ObjectBasket(PropertySet([key], map[key := v]));
    assert PropertySets.Entries(b.properties) == [(key, v)];
    var entries := [(key, u(v))];
    assert PropertySets.OfEntries(entries) == PropertySets.With(PropertySets.Empty, key, u(v)) by {
      assert entries[..0] == [];
    }
  }

  /** The updater keeps every key of an object, in order. */
  lemma UpdateKeepsKeys(key: string, cont: Updater, ps: PropertySet)
    requires ValidProperties(ps)
    ensures Update(key, cont, ObjectBasket(ps)).properties.keys == ps.keys
  {
    var b := ObjectBasket(ps);
    var entries := UpdateEntries(key, cont, b, |PropertySets.Entries(ps)|);
    UpdatedEntryKeys(key, cont, ps);
    PropertySets.OfDistinctKeys(entries);
  }

  lemma UpdatedEntryKeys(key: string, cont: Updater, ps: PropertySet)
    requires ValidProperties(ps)
    ensures PropertySets.KeysOf(UpdateEntries(key, cont, ObjectBasket(ps), |PropertySets.Entries(ps)|)) == ps.keys
  {
    var es := PropertySets.Entries(ps);
    PropertySets.EntriesKeys(ps);
    PropertySets.SameKeys(UpdateEntries(key, cont, ObjectBasket(ps), |es|), es);
  }
  /**
   * With a continuation that builds well-shaped results, so does the deep scan; an array is
   * scanned item by item, in order.
   */
  lemma {:induction false} ProjectValid(key: string, cont: Projector, b: Basket)
    requires forall x :: Valid(cont(x))
    ensures Valid(Project(key, cont, b))
    decreases b, 1
  {
    match b {
      case ArrayBasket(items) => ProjectItemsValid(key, cont, b, |items|);
      case ObjectBasket(ps) => ProjectEntriesValid(key, cont, b, |PropertySets.Entries(ps)|);
      case _ =>
    }
  }

  lemma {:induction false} ProjectItemsValid(key: string, cont: Projector, parent: Basket, n: nat)
    requires forall x :: Valid(cont(x))
    requires parent.ArrayBasket? && n <= |parent.contents|
    ensures Valid(ProjectItems(key, cont, parent, n))
    ensures Elements(ProjectItems(key, cont, parent, n)) ==
      FlatElements(parent.contents[..n], x => Project(key, cont, x))
    decreases parent, 0, n
  {
    if n > 0 {
      var scan := x => Project(key, cont, x);
      ProjectItemsValid(key, cont, parent, n - 1);
      ProjectValid(key, cont, parent.contents[n - 1]);
      AddConcatenates(ProjectItems(key, cont, parent, n - 1), Project(key, cont, parent.contents[n - 1]));
      assert parent.contents[..n][..n - 1] == parent.contents[..n - 1];
      assert FlatElements(parent.contents[..n], scan) ==
        FlatElements(parent.contents[..n - 1], scan) + Elements(scan(parent.contents[n - 1]));
    }
  }

  lemma {:induction false} ProjectEntriesValid(key: string, cont: Projector, parent: Basket, n: nat)
    requires forall x :: Valid(cont(x))
    requires parent.ObjectBasket? && n <= |PropertySets.Entries(parent.properties)|
    ensures Valid(ProjectEntries(key, cont, parent, n))
    decreases parent, 0, n
  {
    if n > 0 {
      var e := PropertySets.Entries(parent.properties)[n - 1];
      ProjectEntriesValid(key, cont, parent, n - 1);
      if e.0 != key {
        assert e.1 == parent.properties.properties[e.0];
        ProjectValid(key, cont, e.1);
      }
      AddConcatenates(ProjectEntries(key, cont, parent, n - 1), if e.0 == key then cont(e.1) else Project(key, cont, e.1));
    }
  }
}
