/**
 * `IgnoreAllFilter`: a filtering writer that skips the rest of the container it was created
 * in, counting the containers opened inside it, and hands its target back to its parent
 * writer at the End that closes that container.
 */
module IgnoreAll {
  import opened Outcomes
  import opened Values
  import opened TokenStreams

  /** What a call on the filter gives back: the filter itself, or the parent advanced to a target. */
  datatype Handover<T> = Stay | ParentAdvanced(target: T)

  const CANNOT_COMPLETE: string := "Cannot complete while writing array or object"

  /** An End at depth `depth` hands back to the parent exactly when no inner container is open. */
  predicate ReturnsToParent(depth: int, t: Token) {
    t.End? && depth == 0
  }

  /** The depth after a token: a Begin opens one container, an End closes one, anything else leaves it. */
  function DepthAfter(depth: int, t: Token): (d: int)
    ensures IsBegin(t) ==> d == depth + 1
    ensures t.End? ==> d == depth - 1
    ensures !IsBegin(t) && !t.End? ==> d == depth
  {
    depth + Change(t)
  }

  /** Fed from depth 0, the filter's depth after a stream counts the containers it left open. */
  lemma {:induction false} DepthCountsLevel(ts: seq<Token>)
    ensures Feed(DepthAfter, 0, ts) == Level(ts)
    decreases |ts|
  {
    if |ts| > 0 {
      DepthCountsLevel(ts[..|ts| - 1]);
    }
  }

  /**
   * Skipping a balanced stream (the rest of a container's items or entries) never hands
   * back to the parent, and the End that follows it does.
   */
  lemma SkipsBalanced(ts: seq<Token>)
    requires Balanced(ts)
    ensures forall k | 0 <= k < |ts| :: !ReturnsToParent(Feed(DepthAfter, 0, ts[..k]), ts[k])
    ensures ReturnsToParent(Feed(DepthAfter, 0, ts), End)
  {
    DepthCountsLevel(ts);
    forall k | 0 <= k < |ts|
      ensures !ReturnsToParent(Feed(DepthAfter, 0, ts[..k]), ts[k])
    {
      DepthCountsLevel(ts[..k]);
      DepthCountsLevel(ts[..k + 1]);
      assert ts[..k + 1][..k] == ts[..k];
    }
  }

  /** Skipping a whole basket never hands back to the parent, and leaves the depth where it was. */
  lemma SkipsBasket(b: Basket)
    ensures var ts := Tokens(b);
      && (forall k | 0 <= k < |ts| :: !ReturnsToParent(Feed(DepthAfter, 0, ts[..k]), ts[k]))
      && Feed(DepthAfter, 0, ts) == 0
  {
    TokensNested(b);
    EnclosedIsBalanced(Tokens(b));
    SkipsBalanced(Tokens(b));
    DepthCountsLevel(Tokens(b));
  }

  /** The filter: the writer target to hand back, and how many containers are open inside the skipped one. */
  class IgnoreAllFilter<T> {
    var target: T
    var depth: int

    constructor (target: T)
      ensures this.target == target && depth == 0
    {
      this.target := target;
      depth := 0;
    }

    method BeginObject() returns (r: Handover<T>)
      modifies this
      ensures depth == DepthAfter(old(depth), Token.BeginObject) && target == old(target)
      ensures r == Stay
    {
      depth := depth + 1;
      r := Stay;
    }

    method BeginArray() returns (r: Handover<T>)
      modifies this
      ensures depth == DepthAfter(old(depth), Token.BeginArray) && target == old(target)
      ensures r == Stay
    {
      depth := depth + 1;
      r := Stay;
    }

    /** The depth is compared before it is decremented, and decremented either way. */
    method End() returns (r: Handover<T>)
      modifies this
      ensures depth == DepthAfter(old(depth), Token.End) && target == old(target)
      ensures r == if ReturnsToParent(old(depth), Token.End) then ParentAdvanced(target) else Stay
    {
      var wasOutermost := depth == 0;
      depth := depth - 1;
      if wasOutermost {
        r := ParentAdvanced(target);
      } else {
        r := Stay;
      }
    }

    method Key(key: string) returns (r: Handover<T>)
      ensures r == Stay
    {
      r := Stay;
    }

    method AddString(value: string) returns (r: Handover<T>)
      ensures r == Stay
    {
      r := Stay;
    }

    method AddNumber(value: Decimal) returns (r: Handover<T>)
      ensures r == Stay
    {
      r := Stay;
    }

    method AddBoolean(value: bool) returns (r: Handover<T>)
      ensures r == Stay
    {
      r := Stay;
    }

    method AddNull() returns (r: Handover<T>)
      ensures r == Stay
    {
      r := Stay;
    }

    method Advance(newTarget: T) returns (r: Handover<T>)
      modifies this
      ensures target == newTarget && depth == old(depth)
      ensures r == Stay
    {
      target := newTarget;
      r := Stay;
    }

    method Complete() returns (r: Result<T>)
      ensures r == Err(IllegalState(CANNOT_COMPLETE))
    {
      r := Err(IllegalState(CANNOT_COMPLETE));
    }
  }
}
