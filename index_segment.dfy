/** The `[i, j, ...]` segment: selects array items by index; a negative index counts from the end. */
module IndexSegment {
  import opened Outcomes
  import opened Values
  import opened ProjectionResults
  import opened Segments
  import ArrayContents

  function Resolve(index: int, size: nat): int {
    if index < 0 then size + index else index
  }

  /** The items the projector visits: each listed index that resolves inside the array, in listed order. */
  function SelectedItems(indices: seq<Int32>, items: seq<Basket>): seq<Basket>
    decreases |indices|
  {
    if |indices| == 0 then []
    else
      var actual := Resolve(indices[|indices| - 1], |items|);
      SelectedItems(indices[..|indices| - 1], items) + (if 0 <= actual < |items| then [items[actual]] else [])
  }

  /** With every index inside the array, the projector visits exactly the listed items. */
  lemma {:induction false} SelectedItemsInRange(indices: seq<Int32>, items: seq<Basket>)
    requires forall i | 0 <= i < |indices| :: -|items| <= indices[i] < |items|
    ensures |SelectedItems(indices, items)| == |indices|
    ensures forall i | 0 <= i < |indices| :: SelectedItems(indices, items)[i] == items[Resolve(indices[i], |items|)]
    decreases |indices|
  {
    if |indices| > 0 {
      SelectedItemsInRange(indices[..|indices| - 1], items);
    }
  }

  /** The projector: the continuation's results for the selected items, in order. */
  function Project(indices: seq<Int32>, cont: Projector, b: Basket): (r: ProjectionResult<Basket>)
    ensures !b.ArrayBasket? ==> r == EmptyResult
  {
    if b.ArrayBasket? then AddAll(SelectedItems(indices, b.contents), cont) else EmptyResult
  }

  /** The projector's loop over the indices. */
  method ProjectArray(indices: seq<Int32>, items: seq<Basket>, cont: Projector) returns (result: ProjectionResult<Basket>)
    ensures result == AddAll(SelectedItems(indices, items), cont)
  {
    result := EmptyResult;
    for i := 0 to |indices|
      invariant result == AddAll(SelectedItems(indices[..i], items), cont)
    {
      assert indices[..i + 1][..i] == indices[..i];
      var actual := Resolve(indices[i], |items|);
      if actual >= 0 && actual < |items| {
        assert SelectedItems(indices[..i + 1], items) == SelectedItems(indices[..i], items) + [items[actual]];
        AddAllSnoc(SelectedItems(indices[..i], items), items[actual], cont);
        result := Add(result, cont(items[actual]));
      } else {
        assert SelectedItems(indices[..i + 1], items) == SelectedItems(indices[..i], items);
      }
    }
    assert indices[..|indices|] == indices;
  }

  /** The updater's loop with the bound check on both sides (see the findings): out-of-range indices are skipped. */
  function UpdateItems(indices: seq<Int32>, items: seq<Basket>, cont: Updater): (r: seq<Basket>)
    ensures |r| == |items|
    decreases |indices|
  {
    if |indices| == 0 then items
    else
      var updated := UpdateItems(indices[..|indices| - 1], items, cont);
      var actual := Resolve(indices[|indices| - 1], |items|);
      if 0 <= actual < |items| then updated[actual := cont(updated[actual])] else updated
  }

  function Update(indices: seq<Int32>, cont: Updater, b: Basket): (r: Basket)
    ensures !b.ArrayBasket? ==> r == b
    ensures b.ArrayBasket? ==> r.ArrayBasket? && |r.contents| == |b.contents|
  {
    if b.ArrayBasket? then ArrayBasket(UpdateItems(indices, b.contents, cont)) else b
  }

  method UpdateArray(indices: seq<Int32>, items: seq<Basket>, cont: Updater) returns (updated: seq<Basket>)
    ensures updated == UpdateItems(indices, items, cont)
  {
    updated := items;
    for i := 0 to |indices|
      invariant updated == UpdateItems(indices[..i], items, cont)
    {
      assert indices[..i + 1][..i] == indices[..i];
      var actual := Resolve(indices[i], |items|);
      if actual >= 0 && actual < |items| {
        updated := updated[actual := cont(updated[actual])];
      }
    }
    assert indices[..|indices|] == indices;
  }

  function ResolvedIndices(indices: seq<Int32>, size: nat): (r: seq<int>)
    ensures |r| == |indices| && forall i | 0 <= i < |indices| :: r[i] == Resolve(indices[i], size)
  {
    seq(|indices|, i requires 0 <= i < |indices| => Resolve(indices[i], size))
  }

  /**
   * Each item is passed through the continuation once for every listed index that resolves to it
   * (each time to the result of the previous pass); items no index names are left as they are.
   */
  lemma {:induction false} UpdateItemsApplies(indices: seq<Int32>, items: seq<Basket>, cont: Updater, j: nat)
    requires j < |items|
    ensures UpdateItems(indices, items, cont)[j] == ApplyN(cont, Count(ResolvedIndices(indices, |items|), j), items[j])
    decreases |indices|
  {
    if |indices| > 0 {
      var init := indices[..|indices| - 1];
      UpdateItemsApplies(init, items, cont, j);
      assert ResolvedIndices(indices, |items|)[..|indices| - 1] == ResolvedIndices(init, |items|);
    }
  }

  /** The updater's loop as written: it checks only `actual < size`, so an index before the array start throws. */
  function UpdateItemsAsWritten(indices: seq<Int32>, items: seq<Basket>, cont: Updater): Result<seq<Basket>>
    decreases |indices|
  {
    if |indices| == 0 then Ok(items)
    else
      var updated :- UpdateItemsAsWritten(indices[..|indices| - 1], items, cont);
      var actual := Resolve(indices[|indices| - 1], |items|);
      if actual < |items| then
        var current :- ArrayContents.Get(updated, actual);
        ArrayContents.With(updated, actual, cont(current))
      else Ok(updated)
  }

  /** Where no index reaches before the start of the array, the loop as written and the corrected loop agree. */
  lemma {:induction false} UpdateAsWrittenAgrees(indices: seq<Int32>, items: seq<Basket>, cont: Updater)
    requires forall i | 0 <= i < |indices| :: indices[i] >= -|items|
    ensures UpdateItemsAsWritten(indices, items, cont) == Ok(UpdateItems(indices, items, cont))
    decreases |indices|
  {
    if |indices| > 0 {
      UpdateAsWrittenAgrees(indices[..|indices| - 1], items, cont);
    }
  }

  /** Index -5 of a three-item array: the projector skips it, the updater as written throws. */
  lemma UpdateAsWrittenThrowsBeforeStart(cont: Updater, p: Projector)
    ensures Project([-5], p, ArrayBasket([NullBasket, NullBasket, NullBasket])) == EmptyResult
    ensures UpdateItemsAsWritten([-5], [NullBasket, NullBasket, NullBasket], cont) == Err(IndexOutOfBounds(-2))
    ensures UpdateItems([-5], [NullBasket, NullBasket, NullBasket], cont) == [NullBasket, NullBasket, NullBasket]
  {
    var indices: seq<Int32> := [-5];
    assert indices[..0] == [];
  }
}
