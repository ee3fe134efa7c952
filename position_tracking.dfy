/**
 * `PositionTrackingState`: the position and the path binding moved on together, one token at
 * a time, and `positionAwareStateMachine`, which hands each token and the tracking state it
 * leads to to an interpreter whose output drives a downstream state machine.
 */
module PositionTracking {
  import opened Outcomes
  import opened TokenStreams
  import opened Positions
  import opened PathBinding
  import Segments
  import Values

  /** The two parts of a tracking state, as values. */
  datatype Tracked = Tracked(position: Position, binding: BindingState)

  /** `atBindingPoint`: the innermost binding frame was pushed at the current depth. */
  predicate IsBindingPoint(s: Tracked) {
    Depth(s.position) == s.binding.atDepth
  }

  /** `PositionTrackingState.fromPath`: no position yet, and the path's initial binding. */
  function Start(path: Segments.Path): (s: Tracked)
    ensures s.position.NoPosition? && Rooted(s.binding)
    ensures s.binding.Complete? <==> |path| == 0
    ensures IsBindingPoint(s)
  {
    Tracked(NoPosition, FromPath(path))
  }

  /**
   * `positionTrackingStateMachine`: the position moves on first, and the binding is then
   * brought to the new position.
   */
  function Track(s: Tracked, t: Token): (r: Result<Tracked>)
    ensures PositionStep(s.position, t).Err? ==> r == Err(PositionStep(s.position, t).error)
    ensures r.Ok? ==> r.value.position == PositionStep(s.position, t).value
    ensures r.Ok? ==> Ok(r.value.binding) == Bind(s.binding, r.value.position)
  {
    var position :- PositionStep(s.position, t);
    var binding :- Bind(s.binding, position);
    Ok(Tracked(position, binding))
  }

  /** The same step on the outcome so far. */
  function TrackNext(r: Result<Tracked>, t: Token): Result<Tracked> {
    if r.Err? then r else Track(r.value, t)
  }

  /**
   * From a rooted binding stack, a step throws only where the position step does, the stack
   * stays rooted, and inside a container no binding frame is deeper than the position.
   */
  lemma TrackKeepsRooted(s: Tracked, t: Token)
    requires Rooted(s.binding)
    ensures Track(s, t).Ok? <==> PositionStep(s.position, t).Ok?
    ensures Track(s, t).Ok? ==> Rooted(Track(s, t).value.binding)
    ensures Track(s, t).Ok? && !Track(s, t).value.position.NoPosition? ==>
      Track(s, t).value.binding.atDepth <= Depth(Track(s, t).value.position)
  {
    var p := PositionStep(s.position, t);
    if p.Ok? && !p.value.NoPosition? {
      BindPopsThenPushes(s.binding, p.value);
    }
  }

  /** Fed a whole stream, a tracker that starts rooted throws only where the position does. */
  lemma {:induction false} TrackingFollowsPosition(s: Tracked, ts: seq<Token>)
    requires Rooted(s.binding)
    ensures Feed(TrackNext, Ok(s), ts).Ok? <==> Feed(PositionNext, Ok(s.position), ts).Ok?
    ensures Feed(TrackNext, Ok(s), ts).Ok? ==>
      && Feed(TrackNext, Ok(s), ts).value.position == Feed(PositionNext, Ok(s.position), ts).value
      && Rooted(Feed(TrackNext, Ok(s), ts).value.binding)
    decreases |ts|
  {
    if |ts| > 0 {
      var init := ts[..|ts| - 1];
      TrackingFollowsPosition(s, init);
      var r := Feed(TrackNext, Ok(s), init);
      if r.Ok? {
        TrackKeepsRooted(r.value, ts[|ts| - 1]);
      }
    }
  }

  /** With the empty path every position is inside the binding: the state stays complete at depth -1. */
  lemma EmptyPathStaysComplete(s: Tracked, t: Token)
    requires s.binding == FromPath([])
    ensures Track(s, t).Ok? ==> Track(s, t).value.binding == FromPath([])
  {
  }

  /** The position and binding held by the source's mutable tracking object. */
  class PositionTrackingState {
    var position: Position
    var pathBindingState: BindingState

    function Current(): Tracked
      reads this
    {
      Tracked(position, pathBindingState)
    }

    predicate AtBindingPoint()
      reads this
    {
      IsBindingPoint(Current())
    }

    constructor FromPath(path: Segments.Path)
      ensures Current() == Start(path)
    {
      position := NoPosition;
      pathBindingState := PathBinding.FromPath(path);
    }

    /**
     * Receiving a token assigns the new position and then the new binding; when the binding
     * step throws, the position has already been assigned.
     */
    method Receive(t: Token) returns (r: Result<()>)
      modifies this
      ensures r.Ok? <==> Track(old(Current()), t).Ok?
      ensures r.Ok? ==> Current() == Track(old(Current()), t).value
      ensures r.Err? ==> r.error == Track(old(Current()), t).error
      ensures PositionStep(old(position), t).Err? ==> position == old(position)
      ensures PositionStep(old(position), t).Ok? ==> position == PositionStep(old(position), t).value
      ensures r.Err? ==> pathBindingState == old(pathBindingState)
    {
      var p := PositionStep(position, t);
      if p.Err? {
        return Err(p.error);
      }
      position := p.value;
      var b := Bind(pathBindingState, position);
      if b.Err? {
        return Err(b.error);
      }
      pathBindingState := b.value;
      r := Ok(());
    }
  }

  /**
   * `positionAwareStateMachine`: the tracking state moves on first, and the interpreter is
   * given the token together with the tracking state it led to; what it makes of them is
   * passed to the downstream state machine.
   */
  function PositionAwareStep<S, I>(interpret: (Tracked, Token) -> Result<I>, downstream: (S, I) -> Result<S>,
                                   s: (Tracked, S), t: Token): (r: Result<(Tracked, S)>)
    ensures Track(s.0, t).Err? ==> r == Err(Track(s.0, t).error)
    ensures r.Ok? ==> Track(s.0, t) == Ok(r.value.0)
    ensures r.Ok? ==> interpret(r.value.0, t).Ok? && downstream(s.1, interpret(r.value.0, t).value) == Ok(r.value.1)
  {
    var tracked :- Track(s.0, t);
    var input :- interpret(tracked, t);
    var state :- downstream(s.1, input);
    Ok((tracked, state))
  }

  /**
   * Binding `$[?]`: entering the array pushes a conditional frame for the whole path at depth 0,
   * and the frame stays while items go by; leaving the array pops the position back to the root,
   * but the binding is recomputed from the conditional frame and so stays that frame.
   */
  lemma ConditionalPathExample(test: Values.Basket -> bool)
    ensures var path := [Segments.MatchingItem("[?]", test)];
      var r := FromPath(path);
      var a0 := ArrayIndex(NoPosition, 0);
      var c := Conditional(Some(r), 0, path);
      && r.Partial?
      && Track(Tracked(NoPosition, r), Token.BeginArray) == Ok(Tracked(a0, c))
      && Track(Tracked(a0, c), StringValue("value")) == Ok(Tracked(ArrayIndex(NoPosition, 1), c))
      && Track(Tracked(ArrayIndex(NoPosition, 1), c), End) == Ok(Tracked(NoPosition, c))
  {
    var path := [Segments.MatchingItem("[?]", test)];
    var r := FromPath(path);
    var c := Conditional(Some(r), 0, path);
    assert Bind(r, ArrayIndex(NoPosition, 0)) == Ok(c);
    assert Bind(c, ArrayIndex(NoPosition, 1)) == Bind(r, ArrayIndex(NoPosition, 1)) == Ok(c);
  }

  /**
   * A position walk through `[{"foo": ["value"], "bar": "value"}]`: into the array at index 0,
   * into the object, key `foo`, into the inner array, past its item, back out to the object
   * with no key, key `bar`, past its value, back out to index 1, and out.
   */
  lemma PositionWalkExample()
    ensures var p0 := NoPosition;
      var p1 := PositionStep(p0, Token.BeginArray);
      var p2 := PositionStep(p1.value, Token.BeginObject);
      var p3 := PositionStep(p2.value, Key("foo"));
      var p4 := PositionStep(p3.value, Token.BeginArray);
      var p5 := PositionStep(p4.value, StringValue("value"));
      var p6 := PositionStep(p5.value, End);
      var p7 := PositionStep(p6.value, Key("bar"));
      var p8 := PositionStep(p7.value, StringValue("value"));
      var p9 := PositionStep(p8.value, End);
      var p10 := PositionStep(p9.value, End);
      && p1 == Ok(ArrayIndex(NoPosition, 0))
      && p2 == Ok(ObjectKey(ArrayIndex(NoPosition, 0), None))
      && p3 == Ok(ObjectKey(ArrayIndex(NoPosition, 0), Some("foo")))
      && p4 == Ok(ArrayIndex(ObjectKey(ArrayIndex(NoPosition, 0), Some("foo")), 0))
      && p5 == Ok(ArrayIndex(ObjectKey(ArrayIndex(NoPosition, 0), Some("foo")), 1))
      && p6 == Ok(ObjectKey(ArrayIndex(NoPosition, 0), None))
      && p7 == Ok(ObjectKey(ArrayIndex(NoPosition, 0), Some("bar")))
      && p8 == Ok(ObjectKey(ArrayIndex(NoPosition, 0), None))
      && p9 == Ok(ArrayIndex(NoPosition, 1))
      && p10 == Ok(NoPosition)
  {
  }

  /**
   * Binding `$[1].bar`, first array item: the item at index 0 deviates and stays deviated
   * inside, and moving on to index 1 binds `[1]`, leaving `.bar` partial.
   */
  lemma PartialMatchFirstItem()
    ensures var r := FromPath([Segments.ArrayIndex([1]), Segments.ObjectKey(["bar"])]);
      var a0, a1 := ArrayIndex(NoPosition, 0), ArrayIndex(NoPosition, 1);
      var d1 := Deviated(Some(r), 0);
      var p1 := Partial(Some(r), 0, [Segments.ObjectKey(["bar"])]);
      && Track(Tracked(NoPosition, r), Token.BeginArray) == Ok(Tracked(a0, d1))
      && Track(Tracked(a0, d1), Token.BeginObject) == Ok(Tracked(ObjectKey(a0, None), d1))
      && Track(Tracked(ObjectKey(a0, None), d1), End) == Ok(Tracked(a1, p1))
  {
  }

  /**
   * Binding `$[1].bar`, second array item: a key other than `bar`, and the value after it,
   * deviate; the key `bar` completes the binding.
   */
  lemma PartialMatchSecondItem()
    ensures var r := FromPath([Segments.ArrayIndex([1]), Segments.ObjectKey(["bar"])]);
      var a1 := ArrayIndex(NoPosition, 1);
      var p1 := Partial(Some(r), 0, [Segments.ObjectKey(["bar"])]);
      var d2 := Deviated(Some(p1), 1);
      && Track(Tracked(a1, p1), Token.BeginObject) == Ok(Tracked(ObjectKey(a1, None), d2))
      && Track(Tracked(ObjectKey(a1, None), d2), Key("foo")) == Ok(Tracked(ObjectKey(a1, Some("foo")), d2))
      && Track(Tracked(ObjectKey(a1, Some("foo")), d2), StringValue("value")) == Ok(Tracked(ObjectKey(a1, None), d2))
      && Track(Tracked(ObjectKey(a1, None), d2), Key("bar")) == Ok(Tracked(ObjectKey(a1, Some("bar")), Complete(Some(p1), 1)))
  {
  }

  /**
   * Binding `$[1].bar`, inside and just after the bound value: deeper positions stay
   * complete, and leaving the value deviates again.
   */
  lemma PartialMatchInsideBinding()
    ensures var r := FromPath([Segments.ArrayIndex([1]), Segments.ObjectKey(["bar"])]);
      var a1 := ArrayIndex(NoPosition, 1);
      var p1 := Partial(Some(r), 0, [Segments.ObjectKey(["bar"])]);
      var c := Complete(Some(p1), 1);
      var bar := ObjectKey(a1, Some("bar"));
      && Track(Tracked(bar, c), Token.BeginArray) == Ok(Tracked(ArrayIndex(bar, 0), c))
      && Track(Tracked(ArrayIndex(bar, 0), c), End) == Ok(Tracked(ObjectKey(a1, None), Deviated(Some(p1), 1)))
  {
  }

  /**
   * Binding `$[1].bar`, after the bound value: another key and its value deviate, and so
   * does everything up to the end of the stream.
   */
  lemma PartialMatchAfterBinding()
    ensures var r := FromPath([Segments.ArrayIndex([1]), Segments.ObjectKey(["bar"])]);
      var a1 := ArrayIndex(NoPosition, 1);
      var p1 := Partial(Some(r), 0, [Segments.ObjectKey(["bar"])]);
      var d1, d2 := Deviated(Some(r), 0), Deviated(Some(p1), 1);
      && Track(Tracked(ObjectKey(a1, None), d2), Key("baz")) == Ok(Tracked(ObjectKey(a1, Some("baz")), d2))
      && Track(Tracked(ObjectKey(a1, Some("baz")), d2), StringValue("value")) == Ok(Tracked(ObjectKey(a1, None), d2))
      && Track(Tracked(ObjectKey(a1, None), d2), End) == Ok(Tracked(ArrayIndex(NoPosition, 2), d1))
      && Track(Tracked(ArrayIndex(NoPosition, 2), d1), End) == Ok(Tracked(NoPosition, d1))
  {
  }
}
