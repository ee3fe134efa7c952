/**
 * `Position`: where a token stream currently is in the nested structure of the basket it
 * describes, kept as an explicit stack of frames (an array index or an object key, each
 * holding the frame it was entered from), and `positionStateMachine`, which moves it on
 * by one token.
 */
module Positions {
  import opened Outcomes
  import opened TokenStreams
  import Values
  import PropertySets
  import Segments

  /**
   * The frames of the position. The source stores each frame's depth beside it; here the
   * depth is computed from the frames below it, which is what `enterArray`/`enterObject`
   * store.
   */
  datatype Position =
    | NoPosition
    | ArrayIndex(outer: Position, index: Segments.Int32)
    | ObjectKey(outer: Position, key: Option<string>)

  const EXIT_EMPTY: string := "exit() called on empty position"
  const KEY_EMPTY: string := "key() called on empty position"
  const KEY_AT_INDEX: string := "key() called on array index position"

  /** The nesting depth: -1 outside any container, 0 inside the outermost one. */
  function Depth(p: Position): (d: int)
    ensures d >= -1
    ensures d == -1 <==> p.NoPosition?
    ensures !p.NoPosition? ==> d == Depth(p.outer) + 1
  {
    if p.NoPosition? then -1 else Depth(p.outer) + 1
  }

  /** Kotlin's `index += 1` on an `Int`: it wraps from Int.MAX_VALUE to Int.MIN_VALUE. */
  function Inc32(i: Segments.Int32): (j: Segments.Int32)
    ensures j == if i < 0x7fff_ffff then i + 1 else -0x8000_0000
  {
    if i == 0x7fff_ffff then -0x8000_0000 else i + 1
  }

  /** The `Int` a count of `n` wraps to. */
  function Wrap32(n: nat): (i: Segments.Int32)
    ensures n < 0x8000_0000 ==> i == n
  {
    (n + 0x8000_0000) % 0x1_0000_0000 - 0x8000_0000
  }

  /** Counting one more on a wrapped count is wrapping one more. */
  lemma Inc32Counts(n: nat)
    ensures Inc32(Wrap32(n)) == Wrap32(n + 1)
  {
    var m := (n + 0x8000_0000) % 0x1_0000_0000;
    assert (n + 1 + 0x8000_0000) % 0x1_0000_0000 == if m == 0xffff_ffff then 0 else m + 1;
  }

  /** `exit()`: back to the frame this one was entered from. */
  function Exit(p: Position): (r: Result<Position>)
    ensures r.Err? <==> p.NoPosition?
    ensures r.Err? ==> r.error == IllegalState(EXIT_EMPTY)
    ensures r.Ok? ==> Depth(r.value) == Depth(p) - 1
  {
    if p.NoPosition? then Err(IllegalState(EXIT_EMPTY)) else Ok(p.outer)
  }

  /** `key(k)`: only an object frame takes a key, and it keeps its depth and outer frame. */
  function KeyAt(p: Position, k: string): (r: Result<Position>)
    ensures r.Ok? <==> p.ObjectKey?
    ensures p.NoPosition? ==> r == Err(IllegalState(KEY_EMPTY))
    ensures p.ArrayIndex? ==> r == Err(IllegalState(KEY_AT_INDEX))
    ensures r.Ok? ==> r.value.ObjectKey? && r.value.key == Some(k) && r.value.outer == p.outer
  {
    match p
    case NoPosition => Err(IllegalState(KEY_EMPTY))
    case ArrayIndex(_, _) => Err(IllegalState(KEY_AT_INDEX))
    case ObjectKey(outer, _) => Ok(ObjectKey(outer, Some(k)))
  }

  /**
   * `advance()`, after a complete value: an array frame moves on to the next index, an
   * object frame forgets its key, and there is nothing to move outside any container.
   */
  function Advance(p: Position): (q: Position)
    ensures Depth(q) == Depth(p)
    ensures q.NoPosition? <==> p.NoPosition?
    ensures !p.NoPosition? ==> q.outer == p.outer
    ensures p.ArrayIndex? ==> q.ArrayIndex? && q.index == Inc32(p.index)
    ensures p.ObjectKey? ==> q.ObjectKey? && q.key.None?
  {
    match p
    case NoPosition => p
    case ArrayIndex(outer, index) => ArrayIndex(outer, Inc32(index))
    case ObjectKey(outer, _) => ObjectKey(outer, None)
  }

  /** `enterArray()`: one level deeper, at index 0, and `exit()` leads back. */
  function EnterArray(p: Position): (q: Position)
    ensures Depth(q) == Depth(p) + 1
    ensures q.ArrayIndex? && q.index == 0
    ensures Exit(q) == Ok(p)
  {
    ArrayIndex(p, 0)
  }

  /** `enterObject()`: one level deeper, with no key yet, and `exit()` leads back. */
  function EnterObject(p: Position): (q: Position)
    ensures Depth(q) == Depth(p) + 1
    ensures q.ObjectKey? && q.key.None?
    ensures Exit(q) == Ok(p)
  {
    ObjectKey(p, None)
  }

  /**
   * `checkAgainst(segment)`: an array frame asks the segment about its index, a keyed
   * object frame about its key; no position and an object frame without a key never match.
   */
  function CheckAgainst(p: Position, segment: Segments.PathSegment): (r: Result<Segments.MatchResult>)
    ensures p.NoPosition? ==> r == Ok(Segments.UNMATCHED)
    ensures p.ObjectKey? && p.key.None? ==> r == Ok(Segments.UNMATCHED)
    ensures r.Err? ==> Segments.IsConditional(segment)
    ensures p.ArrayIndex? ==> r == Segments.MatchesIndex(segment, p.index)
    ensures p.ObjectKey? && p.key.Some? ==> r == Segments.MatchesKey(segment, p.key.value)
  {
    match p
    case NoPosition => Ok(Segments.UNMATCHED)
    case ArrayIndex(_, index) => Segments.MatchesIndex(segment, index)
    case ObjectKey(_, key) => if key.None? then Ok(Segments.UNMATCHED) else Segments.MatchesKey(segment, key.value)
  }

  /**
   * `positionStateMachine`: a key names the current object entry, Begin enters a new frame,
   * End leaves the frame and advances past the container just closed, and a scalar advances.
   */
  function PositionStep(p: Position, t: Token): (r: Result<Position>)
    ensures r.Err? <==> (t.End? && p.NoPosition?) || (t.Key? && !p.ObjectKey?)
    ensures r.Ok? ==> Depth(r.value) == Depth(p) + Change(t)
    ensures t.End? && !p.NoPosition? ==> r == Ok(Advance(p.outer))
    ensures !IsBegin(t) && !t.End? && !t.Key? ==> r == Ok(Advance(p))
  {
    match t
    case Key(k) => KeyAt(p, k)
    case BeginArray => Ok(EnterArray(p))
    case BeginObject => Ok(EnterObject(p))
    case End =>
      var outer :- Exit(p);
      Ok(Advance(outer))
    case _ => Ok(Advance(p))
  }

  /** The same step on the outcome so far: once a step has thrown, the stream stops. */
  function PositionNext(r: Result<Position>, t: Token): Result<Position> {
    if r.Err? then r else PositionStep(r.value, t)
  }

  /** The depth of the position always counts the containers the tokens fed so far have left open. */
  lemma {:induction false} DepthIsLevel(p: Position, ts: seq<Token>)
    ensures var r := Feed(PositionNext, Ok(p), ts);
      r.Ok? ==> Depth(r.value) == Depth(p) + Level(ts)
    decreases |ts|
  {
    if |ts| > 0 {
      DepthIsLevel(p, ts[..|ts| - 1]);
    }
  }

  /**
   * Walking past a whole basket: whatever position the basket's tokens start from, they
   * never throw and end where a single scalar would have, one value further on.
   */
  lemma {:induction false} WalkBasket(p: Position, b: Values.Basket)
    ensures Feed(PositionNext, Ok(p), Tokens(b)) == Ok(Advance(p))
  {
    WriteToFeeds(b, Ok(p), PositionNext);
    WalkTokens(p, b);
  }

  lemma {:induction false} WalkTokens(p: Position, b: Values.Basket)
    ensures WriteTo(b, Ok(p), PositionNext) == Ok(Advance(p))
    decreases b, 1
  {
    match b
    case ArrayBasket(items) =>
      WalkItems(p, b, |items|);
    case ObjectBasket(ps) =>
      WalkEntries(p, b, |PropertySets.Entries(ps)|);
    case _ =>
  }

  /** After the first `n` items of an array, its frame is at index `n` (as an `Int`). */
  lemma {:induction false} WalkItems(p: Position, parent: Values.Basket, n: nat)
    requires parent.ArrayBasket? && n <= |parent.contents|
    ensures WriteItems(parent, n, Ok(ArrayIndex(p, 0)), PositionNext) == Ok(ArrayIndex(p, Wrap32(n)))
    decreases parent, 0, n
  {
    if n > 0 {
      WalkItems(p, parent, n - 1);
      WalkTokens(ArrayIndex(p, Wrap32(n - 1)), parent.contents[n - 1]);
      Inc32Counts(n - 1);
    }
  }

  /** After each entry of an object, its frame has no key again. */
  lemma {:induction false} WalkEntries(p: Position, parent: Values.Basket, n: nat)
    requires parent.ObjectBasket? && n <= |PropertySets.Entries(parent.properties)|
    ensures WriteEntries(parent, n, Ok(ObjectKey(p, None)), PositionNext) == Ok(ObjectKey(p, None))
    decreases parent, 0, n, 1
  {
    if n > 0 {
      WalkEntries(p, parent, n - 1);
      WalkEntry(p, parent, n);
    }
  }

  /** A key and then its value leave an object frame without a key again. */
  lemma {:induction false} WalkEntry(p: Position, parent: Values.Basket, n: nat)
    requires parent.ObjectBasket? && 0 < n <= |PropertySets.Entries(parent.properties)|
    requires WriteEntries(parent, n - 1, Ok(ObjectKey(p, None)), PositionNext) == Ok(ObjectKey(p, None))
    ensures WriteEntries(parent, n, Ok(ObjectKey(p, None)), PositionNext) == Ok(ObjectKey(p, None))
    decreases parent, 0, n, 0
  {
    var e := PropertySets.Entries(parent.properties)[n - 1];
    PropertySets.EntryValue(parent.properties, n - 1);
    WalkTokens(ObjectKey(p, Some(e.0)), e.1);
  }

}
