/** ArrayContents: a persistent vector of baskets whose index operations throw on a bad index. */
module ArrayContents {
  import opened Outcomes
  import opened Values

  function Get(items: seq<Basket>, index: int): (r: Result<Basket>)
    ensures r.Ok? <==> 0 <= index < |items|
    ensures r.Ok? ==> r.value == items[index]
    ensures r.Err? ==> r.error == IndexOutOfBounds(index)
  {
    if 0 <= index < |items| then Ok(items[index]) else Err(IndexOutOfBounds(index))
  }

  function Plus(items: seq<Basket>, b: Basket): (r: seq<Basket>)
    ensures |r| == |items| + 1 && r[..|items|] == items && r[|items|] == b
  {
    items + [b]
  }

  /** `plus(index, basket)`: inserts before `index`; `index == size` appends. */
  function Insert(items: seq<Basket>, index: int, b: Basket): (r: Result<seq<Basket>>)
    ensures r.Ok? <==> 0 <= index <= |items|
    ensures r.Err? ==> r.error == IndexOutOfBounds(index)
    ensures r.Ok? ==> && |r.value| == |items| + 1
                      && r.value[index] == b
                      && r.value[..index] == items[..index]
                      && r.value[index + 1..] == items[index..]
  {
    if 0 <= index <= |items| then Ok(items[..index] + [b] + items[index..]) else Err(IndexOutOfBounds(index))
  }

  /** `with(index, basket)`: replaces one item. */
  function With(items: seq<Basket>, index: int, b: Basket): (r: Result<seq<Basket>>)
    ensures r.Ok? <==> 0 <= index < |items|
    ensures r.Err? ==> r.error == IndexOutOfBounds(index)
    ensures r.Ok? ==> && |r.value| == |items|
                      && r.value[index] == b
                      && forall j | 0 <= j < |items| && j != index :: r.value[j] == items[j]
  {
    if 0 <= index < |items| then Ok(items[index := b]) else Err(IndexOutOfBounds(index))
  }

  /** `minus(index)`: removes one item; the later items move down by one. */
  function Minus(items: seq<Basket>, index: int): (r: Result<seq<Basket>>)
    ensures r.Ok? <==> 0 <= index < |items|
    ensures r.Err? ==> r.error == IndexOutOfBounds(index)
    ensures r.Ok? ==> && |r.value| == |items| - 1
                      && r.value[..index] == items[..index]
                      && r.value[index..] == items[index + 1..]
  {
    if 0 <= index < |items| then Ok(items[..index] + items[index + 1..]) else Err(IndexOutOfBounds(index))
  }

  predicate IsEmpty(items: seq<Basket>) {
    |items| == 0
  }

  /** Removing the item just inserted at an index gives the original contents back. */
  lemma InsertThenMinus(items: seq<Basket>, index: int, b: Basket)
    requires 0 <= index <= |items|
    ensures Minus(Insert(items, index, b).value, index) == Ok(items)
  {
    var inserted := Insert(items, index, b).value;
    assert inserted[..index] + inserted[index + 1..] == items[..index] + items[index..];
    assert items[..index] + items[index..] == items;
  }
}
