/** The `[start:end]` segment: selects a range of array items; negative bounds count from the end. */
module SliceSegment {
  import opened Outcomes
  import opened Values
  import opened ProjectionResults
  import opened Segments
  import ArrayContents

  /** The first index of the range as the source computes it: `size + start` may fall before the array. */
  function ActualStartAsWritten(start: Int32, size: nat): int {
    if start == LOWER_UNBOUNDED then 0 else if start < 0 then size + start else start
  }

  /** The first index of the range, clamped at the start of the array. */
  function ActualStart(start: Int32, size: nat): (r: nat)
    ensures start == LOWER_UNBOUNDED ==> r == 0
    ensures 0 <= start ==> r == start
    ensures LOWER_UNBOUNDED < start < 0 ==> r == if size + start < 0 then 0 else size + start
  {
    var s := ActualStartAsWritten(start, size);
    if s < 0 then 0 else s
  }

  /** One past the last index of the range; never beyond the array. */
  function ActualEnd(end: Int32, size: nat): (r: int)
    ensures r <= size
    ensures 0 <= end < UPPER_UNBOUNDED ==> r == if end < size then end else size
  {
    if end == UPPER_UNBOUNDED then size else if end < 0 then size + end else if end < size then end else size
  }

  function SelectedItems(start: Int32, end: Int32, items: seq<Basket>): (r: seq<Basket>)
    ensures |r| <= |items|
    ensures var s := ActualStart(start, |items|);
      && |r| == (if s < ActualEnd(end, |items|) then ActualEnd(end, |items|) - s else 0)
      && forall j | 0 <= j < |r| :: s + j < |items| && r[j] == items[s + j]
  {
    var s := ActualStart(start, |items|);
    var e := ActualEnd(end, |items|);
    if s < e then items[s..e] else []
  }

  function Project(start: Int32, end: Int32, cont: Projector, b: Basket): (r: ProjectionResult<Basket>)
    ensures !b.ArrayBasket? ==> r == EmptyResult
  {
    if b.ArrayBasket? then AddAll(SelectedItems(start, end, b.contents), cont) else EmptyResult
  }

  /** The projector's loop over `actualStart until actualEnd`. */
  method ProjectArray(start: Int32, end: Int32, items: seq<Basket>, cont: Projector) returns (result: ProjectionResult<Basket>)
    ensures result == AddAll(SelectedItems(start, end, items), cont)
  {
    result := EmptyResult;
    var s := ActualStart(start, |items|);
    var e := ActualEnd(end, |items|);
    if s >= e {
      return;
    }
    for i := s to e
      invariant result == AddAll(items[s..i], cont)
    {
      assert items[s..i + 1] == items[s..i] + [items[i]];
      assert (items[s..i] + [items[i]])[..i - s] == items[s..i];
      result := Add(result, cont(items[i]));
    }
  }

  /** The items of the range passed through the continuation; the rest unchanged. */
  function UpdateItems(start: Int32, end: Int32, items: seq<Basket>, cont: Updater): (r: seq<Basket>)
    ensures |r| == |items|
    ensures forall j | 0 <= j < |items| ::
      r[j] == if ActualStart(start, |items|) <= j < ActualEnd(end, |items|) then cont(items[j]) else items[j]
  {
    var s := ActualStart(start, |items|);
    var e := ActualEnd(end, |items|);
    if s < e then items[..s] + MapSeq(items[s..e], cont) + items[e..] else items
  }

  function Update(start: Int32, end: Int32, cont: Updater, b: Basket): (r: Basket)
    ensures !b.ArrayBasket? ==> r == b
  {
    if b.ArrayBasket? then ArrayBasket(UpdateItems(start, end, b.contents, cont)) else b
  }

  method UpdateArray(start: Int32, end: Int32, items: seq<Basket>, cont: Updater) returns (updated: seq<Basket>)
    ensures updated == UpdateItems(start, end, items, cont)
  {
    updated := items;
    var s := ActualStart(start, |items|);
    var e := ActualEnd(end, |items|);
    if s >= e {
      return;
    }
    for i := s to e
      invariant |updated| == |items|
      invariant forall j | 0 <= j < |items| :: updated[j] == if s <= j < i then cont(items[j]) else items[j]
    {
      updated := updated[i := cont(updated[i])];
    }
    RangeUpdated(s, e, items, cont, updated);
  }

  /** A sequence that agrees with `cont` applied inside `[s, e)` and with `items` outside it is the splice. */
  lemma RangeUpdated(s: nat, e: nat, items: seq<Basket>, cont: Updater, updated: seq<Basket>)
    requires s < e <= |items| && |updated| == |items|
    requires forall j | 0 <= j < |items| :: updated[j] == if s <= j < e then cont(items[j]) else items[j]
    ensures updated == items[..s] + MapSeq(items[s..e], cont) + items[e..]
  {
    var spliced := items[..s] + MapSeq(items[s..e], cont) + items[e..];
    forall j | 0 <= j < |items|
      ensures updated[j] == spliced[j]
    {
      if j < s {
      } else if j < e {
        assert spliced[j] == MapSeq(items[s..e], cont)[j - s];
      } else {
        assert spliced[j] == items[e..][j - e];
      }
    }
  }

  /** The projector's loop as written, starting from the unclamped start index. */
  function ProjectRangeAsWritten(items: seq<Basket>, from: int, to: int, cont: Projector): Result<ProjectionResult<Basket>>
    decreases to - from
  {
    if to <= from then Ok(EmptyResult)
    else
      var result :- ProjectRangeAsWritten(items, from, to - 1, cont);
      var item :- ArrayContents.Get(items, to - 1);
      Ok(Add(result, cont(item)))
  }

  function ProjectAsWritten(start: Int32, end: Int32, cont: Projector, items: seq<Basket>): Result<ProjectionResult<Basket>> {
    ProjectRangeAsWritten(items, ActualStartAsWritten(start, |items|), ActualEnd(end, |items|), cont)
  }

  /** Over indices inside the array, the loop as written adds each item from `from` up to `to` in order. */
  lemma {:induction false} ProjectRangeInBounds(items: seq<Basket>, from: nat, to: int, cont: Projector)
    requires to <= |items|
    ensures ProjectRangeAsWritten(items, from, to, cont) == Ok(if from < to then AddAll(items[from..to], cont) else EmptyResult)
    decreases if to > from then to - from else 0
  {
    if from < to {
      ProjectRangeInBounds(items, from, to - 1, cont);
      assert items[from..to] == items[from..to - 1] + [items[to - 1]];
      AddAllSnoc(items[from..to - 1], items[to - 1], cont);
    }
  }

  /** Whenever the start does not reach before the array, the loop as written and the clamped one agree. */
  lemma ProjectAsWrittenAgrees(start: Int32, end: Int32, cont: Projector, items: seq<Basket>)
    requires start == LOWER_UNBOUNDED || start >= -|items|
    ensures ProjectAsWritten(start, end, cont, items) == Ok(Project(start, end, cont, ArrayBasket(items)))
  {
    ProjectRangeInBounds(items, ActualStart(start, |items|), ActualEnd(end, |items|), cont);
  }

  /** `[-5:]` on a three-item array: as written the first access is at index -2 and throws; clamped, all three items are selected. */
  lemma SliceBeforeStartThrows(cont: Projector)
    ensures ProjectAsWritten(-5, UPPER_UNBOUNDED, cont, [NullBasket, TrueBasket, FalseBasket]) == Err(IndexOutOfBounds(-2))
    ensures SelectedItems(-5, UPPER_UNBOUNDED, [NullBasket, TrueBasket, FalseBasket]) == [NullBasket, TrueBasket, FalseBasket]
  {
    var items := [NullBasket, TrueBasket, FalseBasket];
    assert ProjectRangeAsWritten(items, -2, -1, cont) == Err(IndexOutOfBounds(-2)) by {
      assert ProjectRangeAsWritten(items, -2, -2, cont) == Ok(EmptyResult);
    }
    assert ProjectRangeAsWritten(items, -2, 0, cont).Err?;
    assert ProjectRangeAsWritten(items, -2, 1, cont).Err?;
    assert ProjectRangeAsWritten(items, -2, 2, cont).Err?;
  }

  /** The updater's loop as written, from the unclamped start index: each index is read and then replaced. */
  function UpdateRangeAsWritten(items: seq<Basket>, from: int, to: int, cont: Updater): Result<seq<Basket>>
    decreases to - from
  {
    if to <= from then Ok(items)
    else
      var updated :- UpdateRangeAsWritten(items, from, to - 1, cont);
      var current :- ArrayContents.Get(updated, to - 1);
      ArrayContents.With(updated, to - 1, cont(current))
  }

  function UpdateAsWritten(start: Int32, end: Int32, items: seq<Basket>, cont: Updater): Result<seq<Basket>> {
    UpdateRangeAsWritten(items, ActualStartAsWritten(start, |items|), ActualEnd(end, |items|), cont)
  }

  /** Over indices inside the array, the loop as written updates exactly the items from `from` up to `to`. */
  lemma {:induction false} UpdateRangeInBounds(items: seq<Basket>, from: nat, to: int, cont: Updater)
    requires to <= |items|
    ensures var r := UpdateRangeAsWritten(items, from, to, cont);
      && r.Ok? && |r.value| == |items|
      && forall j | 0 <= j < |items| :: r.value[j] == if from <= j < to then cont(items[j]) else items[j]
    decreases if to > from then to - from else 0
  {
    if from < to {
      UpdateRangeInBounds(items, from, to - 1, cont);
    }
  }

  /** A range that starts before the array throws at its first index, before anything is updated. */
  lemma {:induction false} UpdateRangeThrowsBeforeStart(items: seq<Basket>, from: int, to: int, cont: Updater)
    requires from < 0 && from < to
    ensures UpdateRangeAsWritten(items, from, to, cont) == Err(IndexOutOfBounds(from))
    decreases if to > from then to - from else 0
  {
    if from < to - 1 {
      UpdateRangeThrowsBeforeStart(items, from, to - 1, cont);
    } else {
      assert UpdateRangeAsWritten(items, from, to - 1, cont) == Ok(items);
    }
  }

  /** Whenever the start does not reach before the array, the updater as written and the clamped one agree. */
  lemma UpdateAsWrittenAgrees(start: Int32, end: Int32, items: seq<Basket>, cont: Updater)
    requires start == LOWER_UNBOUNDED || start >= -|items|
    ensures UpdateAsWritten(start, end, items, cont) == Ok(UpdateItems(start, end, items, cont))
  {
    var s, e := ActualStart(start, |items|), ActualEnd(end, |items|);
    assert ActualStartAsWritten(start, |items|) == s;
    UpdateRangeInBounds(items, s, e, cont);
    var r := UpdateAsWritten(start, end, items, cont).value;
    var u := UpdateItems(start, end, items, cont);
    assert |r| == |u|;
    assert forall j | 0 <= j < |items| :: r[j] == u[j];
    assert r == u;
  }

  /** `[-5:]` on a three-item array: as written the update reads index -2 and throws; clamped, all three items are updated. */
  lemma UpdateBeforeStartThrows(cont: Updater)
    ensures UpdateAsWritten(-5, UPPER_UNBOUNDED, [NullBasket, TrueBasket, FalseBasket], cont) == Err(IndexOutOfBounds(-2))
    ensures UpdateItems(-5, UPPER_UNBOUNDED, [NullBasket, TrueBasket, FalseBasket], cont)
         == [cont(NullBasket), cont(TrueBasket), cont(FalseBasket)]
  {
    UpdateRangeThrowsBeforeStart([NullBasket, TrueBasket, FalseBasket], -2, 3, cont);
  }
}
