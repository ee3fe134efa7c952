/**
 * `PathBindingState`: how much of a path the current position has bound, kept as a stack
 * of frames, each recording the depth at which it was pushed; and `pathBindingStateMachine`,
 * which moves it on to a new position.
 */
module PathBinding {
  import opened Outcomes
  import opened Positions
  import Segments

  /** A path with at least one segment left: `head()` and `tail()` are defined on it. */
  type RemainingPath = p: Segments.Path | |p| > 0 witness [Segments.Wildcard]

  /**
   * The frames. Every frame but the bottom one holds the frame below it in `outer`; the
   * source types `outer` as non-null for `Conditional` and `Deviated`.
   */
  datatype BindingState =
    | Conditional(outer: Option<BindingState>, atDepth: int, conditionalPath: RemainingPath)
    | Complete(outer: Option<BindingState>, atDepth: int)
    | Partial(outer: Option<BindingState>, atDepth: int, remainingPath: RemainingPath)
    | Deviated(outer: Option<BindingState>, atDepth: int)

  /**
   * The frames sit on top of one another at strictly increasing depths, and the bottom frame
   * is at depth -1, outside any container.
   */
  predicate Rooted(s: BindingState)
    decreases s
  {
    if s.outer.None? then s.atDepth == -1
    else s.outer.value.atDepth < s.atDepth && Rooted(s.outer.value)
  }

  lemma {:induction false} RootedDepth(s: BindingState)
    requires Rooted(s)
    ensures s.atDepth >= -1
    ensures s.outer.None? <==> s.atDepth == -1
    decreases s
  {
    if s.outer.Some? {
      RootedDepth(s.outer.value);
    }
  }

  /** `fromPath`: nothing bound yet, at depth -1; an empty path is bound from the start. */
  function FromPath(path: Segments.Path): (s: BindingState)
    ensures s.outer.None? && s.atDepth == -1 && Rooted(s)
    ensures s.Complete? <==> |path| == 0
    ensures s.Partial? <==> |path| > 0
    ensures s.Partial? ==> s.remainingPath == path
  {
    if |path| == 0 then Complete(None, -1) else Partial(None, -1, path)
  }

  /**
   * `pathBindingStateMachine`: outside any container nothing changes; otherwise the frames
   * pushed at the new position's depth or deeper are popped (a missing frame below is a
   * null dereference), and a partial binding is compared with the new position.
   */
  function Bind(state: BindingState, position: Position): (r: Result<BindingState>)
    ensures position.NoPosition? ==> r == Ok(state)
    ensures r.Err? ==> r.error == NullPointer
    decreases state
  {
    if position.NoPosition? then Ok(state)
    else if Depth(position) <= state.atDepth then
      if state.outer.None? then Err(NullPointer) else Bind(state.outer.value, position)
    else if state.Partial? then ComparePartial(state, state.remainingPath, position)
    else Ok(state)
  }

  /**
   * `comparePartial`: a conditional head binds conditionally at this depth; otherwise the
   * position's match against the head deviates, leaves the state as it is, or binds the head.
   * Asking a conditional segment to match would throw, but the head is tested first.
   */
  function ComparePartial(state: BindingState, remainingPath: RemainingPath, position: Position): (r: Result<BindingState>)
    ensures r.Ok?
    ensures Segments.IsConditional(remainingPath[0]) ==>
      r == Ok(Conditional(Some(state), Depth(position), remainingPath))
    ensures !Segments.IsConditional(remainingPath[0]) ==>
      var m := CheckAgainst(position, remainingPath[0]);
      && m.Ok?
      && (m.value == Segments.UNMATCHED ==> r == Ok(Deviated(Some(state), Depth(position))))
      && (m.value == Segments.MATCHED_UNBOUND ==> r == Ok(state))
      && (m.value == Segments.MATCHED_BOUND ==> r == Ok(BoundCase(state, remainingPath[1..], position)))
  {
    var head := remainingPath[0];
    if Segments.IsConditional(head) then Ok(Conditional(Some(state), Depth(position), remainingPath))
    else
      match CheckAgainst(position, head)
      case Err(e) => Err(e)
      case Ok(UNMATCHED) => Ok(Deviated(Some(state), Depth(position)))
      case Ok(MATCHED_UNBOUND) => Ok(state)
      case Ok(MATCHED_BOUND) => Ok(BoundCase(state, remainingPath[1..], position))
  }

  /** `boundCase`: with nothing left of the path the binding is complete, else still partial. */
  function BoundCase(state: BindingState, tail: Segments.Path, position: Position): (r: BindingState)
    ensures r.outer == Some(state) && r.atDepth == Depth(position)
    ensures r.Complete? <==> |tail| == 0
    ensures r.Partial? ==> r.remainingPath == tail
  {
    if |tail| == 0 then Complete(Some(state), Depth(position)) else Partial(Some(state), Depth(position), tail)
  }

  /** The frame left on top once every frame at depth `depth` or deeper has been popped. */
  function Surviving(s: BindingState, depth: int): (t: BindingState)
    decreases s
  {
    if depth <= s.atDepth && s.outer.Some? then Surviving(s.outer.value, depth) else s
  }

  /**
   * Inside a container and from a rooted stack, binding never dereferences a missing frame
   * and keeps the stack rooted. It pops down to the surviving frame and then keeps it, or
   * pushes one new frame at the position's depth onto it: a non-partial surviving frame is
   * kept; a partial one pushes a conditional frame for a conditional head, and otherwise a
   * deviated frame, nothing, or the bound remainder, as the head matches.
   */
  lemma {:induction false} BindPopsThenPushes(s: BindingState, position: Position)
    requires Rooted(s) && !position.NoPosition?
    ensures var t := Surviving(s, Depth(position));
      && t.atDepth < Depth(position)
      && Bind(s, position) == Bind(t, position)
    ensures var t := Surviving(s, Depth(position));
      var r := Bind(s, position);
      && r.Ok? && Rooted(r.value) && r.value.atDepth <= Depth(position)
      && (r.value == t || (r.value.outer == Some(t) && r.value.atDepth == Depth(position)))
      && (!t.Partial? ==> r.value == t)
    decreases s
  {
    RootedDepth(s);
    var d := Depth(position);
    if d <= s.atDepth {
      BindPopsThenPushes(s.outer.value, position);
    } else if s.Partial? {
      var head := s.remainingPath[0];
      if !Segments.IsConditional(head) {
        var m := CheckAgainst(position, head);
        assert m.Ok?;
      }
    }
  }
}
