/**
 * The updating filter: an interpreter that turns each token, together with the tracking
 * state it leads to, into an updater token, and `UpdaterStateMachine`, which either passes
 * tokens straight through to a downstream state machine or buffers them into a basket that
 * is updated and written downstream as a whole.
 */
module Updating {
  import opened Outcomes
  import opened Values
  import opened TokenStreams
  import opened PathBinding
  import opened PositionTracking
  import Writers
  import Segments
  import PathProjection

  /** What the interpreter tells the updater state machine to do with a token. */
  datatype UpdaterToken =
    | PassThrough(wrappedToken: Token)
    | StartUpdating(wrappedToken: Token, updater: Segments.Updater)
    | ContinueUpdating(wrappedToken: Token)
    | EndUpdating

  /**
   * `updatingInterpreter`: at a complete binding point updating starts with the given
   * updater, at a conditional one with the conditional head's item updater over the rest of
   * the path; deeper inside such a binding an End ends updating and anything else continues
   * it; under any other binding the token passes through.
   */
  function UpdatingInterpreter(updater: Segments.Updater, s: Tracked, t: Token): (r: Result<UpdaterToken>)
    ensures !s.binding.Complete? && !s.binding.Conditional? ==> r == Ok(PassThrough(t))
    ensures s.binding.Complete? && IsBindingPoint(s) ==> r == Ok(StartUpdating(t, updater))
    ensures (s.binding.Complete? || s.binding.Conditional?) && !IsBindingPoint(s) ==>
      r == Ok(if t.End? then EndUpdating else ContinueUpdating(t))
    ensures s.binding.Conditional? && IsBindingPoint(s) ==>
      var item := PathProjection.ItemUpdater(s.binding.conditionalPath[0], s.binding.conditionalPath[1..], updater);
      && (r.Ok? <==> item.Ok?)
      && (r.Ok? ==> r.value.StartUpdating? && r.value.wrappedToken == t && r.value.updater == item.value)
    ensures r.Err? ==> r.error == UnsupportedOperation("Cannot create item updater for non-conditional path segment")
  {
    match s.binding
    case Complete(_, _) =>
      if IsBindingPoint(s) then Ok(StartUpdating(t, updater))
      else if t.End? then Ok(EndUpdating)
      else Ok(ContinueUpdating(t))
    case Conditional(_, _, path) =>
      if IsBindingPoint(s) then
        var item :- PathProjection.ItemUpdater(path[0], path[1..], updater);
        Ok(StartUpdating(t, item))
      else if t.End? then Ok(EndUpdating)
      else Ok(ContinueUpdating(t))
    case _ => Ok(PassThrough(t))
  }

  /**
   * `UpdaterState`: passing tokens through to the downstream state, or buffering them into
   * a weaver, with the downstream state held until the updated basket is written to it.
   */
  datatype UpdaterState<S> =
    | PassingThrough(downstreamState: S)
    | Buffering(downstreamState: S, weavingState: Writers.Weaver, updater: Segments.Updater)

  const PASS_THROUGH_WHILE_UPDATING: string := "PassThrough received while updating"
  const START_WHILE_UPDATING: string := "StartUpdating received while updating"
  const CONTINUE_WHILE_PASSING: string := "ContinueUpdating received while passing through"
  const END_WHILE_PASSING: string := "EndUpdating received while passing through"
  const ILLEGAL_TERMINAL_STATE: string := "Illegal terminal state"

  /** `UpdaterState.initial`: passing through to the given downstream state. */
  function Initial<S>(downstream: S): (state: UpdaterState<S>)
    ensures state.PassingThrough? && state.downstreamState == downstream
  {
    PassingThrough(downstream)
  }

  /** `buffer`: the token is written to the weaver, whose exception is the step's. */
  function Buffer<S>(downstream: S, w: Writers.Weaver, updater: Segments.Updater, t: Token): (r: Result<UpdaterState<S>>)
    ensures r.Ok? <==> Writers.Step(w, t).Ok?
    ensures r.Ok? ==> r.value == Buffering(downstream, Writers.Step(w, t).value, updater)
    ensures r.Err? ==> r.error == Writers.Step(w, t).error
  {
    var next :- Writers.Step(w, t);
    Ok(Buffering(downstream, next, updater))
  }

  /** `flush`: the woven basket, updated, is written to the downstream state machine. */
  function Flush<S>(sm: (S, Token) -> S, downstream: S, w: Writers.Weaver, updater: Segments.Updater): (r: Result<S>)
    ensures r.Ok? <==> Writers.Weave(w).Ok?
    ensures r.Ok? ==> r.value == WriteTo(updater(Writers.Weave(w).value), downstream, sm)
  {
    var b :- Writers.Weave(w);
    Ok(WriteTo(updater(b), downstream, sm))
  }

  /**
   * `UpdaterStateMachine`: passing through takes only PassThrough and StartUpdating,
   * buffering only ContinueUpdating and EndUpdating, and anything else is an
   * IllegalStateException. While buffering the downstream state is left alone.
   */
  function UpdaterStep<S>(sm: (S, Token) -> S, state: UpdaterState<S>, input: UpdaterToken): (r: Result<UpdaterState<S>>)
    ensures input.PassThrough? && state.Buffering? ==> r == Err(IllegalState(PASS_THROUGH_WHILE_UPDATING))
    ensures input.StartUpdating? && state.Buffering? ==> r == Err(IllegalState(START_WHILE_UPDATING))
    ensures input.ContinueUpdating? && state.PassingThrough? ==> r == Err(IllegalState(CONTINUE_WHILE_PASSING))
    ensures input.EndUpdating? && state.PassingThrough? ==> r == Err(IllegalState(END_WHILE_PASSING))
    ensures input.PassThrough? && state.PassingThrough? ==>
      r == Ok(PassingThrough(sm(state.downstreamState, input.wrappedToken)))
    ensures r.Ok? && r.value.Buffering? ==> r.value.downstreamState == state.downstreamState
    ensures r.Ok? && r.value.PassingThrough? ==> input.PassThrough? || input.EndUpdating?
  {
    match input
    case PassThrough(t) =>
      if state.PassingThrough? then Ok(PassingThrough(sm(state.downstreamState, t)))
      else Err(IllegalState(PASS_THROUGH_WHILE_UPDATING))
    case StartUpdating(t, updater) =>
      if state.PassingThrough? then Buffer(state.downstreamState, Writers.Weaving(), updater, t)
      else Err(IllegalState(START_WHILE_UPDATING))
    case ContinueUpdating(t) =>
      if state.Buffering? then Buffer(state.downstreamState, state.weavingState, state.updater, t)
      else Err(IllegalState(CONTINUE_WHILE_PASSING))
    case EndUpdating =>
      if state.Buffering? then
        var flushed :- Flush(sm, state.downstreamState, state.weavingState, state.updater);
        Ok(PassingThrough(flushed))
      else Err(IllegalState(END_WHILE_PASSING))
  }

  /** The state machine fed a stream whose every token the interpreter passed through. */
  function PassNext<S>(sm: (S, Token) -> S): (Result<UpdaterState<S>>, Token) -> Result<UpdaterState<S>> {
    (r: Result<UpdaterState<S>>, t: Token) => if r.Err? then r else UpdaterStep(sm, r.value, PassThrough(t))
  }

  /** The state machine fed a stream whose every token the interpreter continued updating with. */
  function ContinueNext<S>(sm: (S, Token) -> S): (Result<UpdaterState<S>>, Token) -> Result<UpdaterState<S>> {
    (r: Result<UpdaterState<S>>, t: Token) => if r.Err? then r else UpdaterStep(sm, r.value, ContinueUpdating(t))
  }

  /** A weaver's outcome as the buffering state holding it. */
  function Holding<S>(downstream: S, updater: Segments.Updater, w: Result<Writers.Weaver>): Result<UpdaterState<S>> {
    if w.Err? then Err(w.error) else Ok(Buffering(downstream, w.value, updater))
  }

  /** Passing a stream through writes exactly that stream to the downstream state machine. */
  lemma {:induction false} PassingThroughForwards<S>(sm: (S, Token) -> S, downstream: S, ts: seq<Token>)
    ensures Feed(PassNext(sm), Ok(PassingThrough(downstream)), ts) == Ok(PassingThrough(Feed(sm, downstream, ts)))
    decreases |ts|
  {
    if |ts| > 0 {
      PassingThroughForwards(sm, downstream, ts[..|ts| - 1]);
    }
  }

  /**
   * Continuing to update writes the stream to the buffered weaver and nothing downstream;
   * the first exception the weaver throws is the state machine's.
   */
  lemma {:induction false} BufferingWeaves<S>(sm: (S, Token) -> S, downstream: S, w: Writers.Weaver,
                                            updater: Segments.Updater, ts: seq<Token>)
    ensures Feed(ContinueNext(sm), Ok(Buffering(downstream, w, updater)), ts)
         == Holding(downstream, updater, Feed(Writers.Next, Ok(w), ts))
    decreases |ts|
  {
    if |ts| > 0 {
      BufferingWeaves(sm, downstream, w, updater, ts[..|ts| - 1]);
    }
  }

  /**
   * Updating a whole well-formed basket: StartUpdating with its first token, ContinueUpdating
   * with the rest and then EndUpdating writes the updated basket downstream, exactly as
   * writing the updated basket while passing through would, and passes through again.
   */
  lemma UpdatesWholeBasket<S>(sm: (S, Token) -> S, downstream: S, updater: Segments.Updater, b: Basket)
    requires WellFormed(b)
    ensures var ts := Tokens(b);
      var started := UpdaterStep(sm, PassingThrough(downstream), StartUpdating(ts[0], updater));
      var buffered := Feed(ContinueNext(sm), started, ts[1..]);
      && buffered.Ok? && buffered.value.Buffering?
      && UpdaterStep(sm, buffered.value, EndUpdating) == Ok(PassingThrough(WriteTo(updater(b), downstream, sm)))
  {
    var ts := Tokens(b);
    TokensNested(b);
    var w0 := Writers.Weaving();
    FeedOne(Writers.Next, Ok(w0), ts[0]);
    BufferingWeaves(sm, downstream, w0, updater, [ts[0]]);
    assert UpdaterStep(sm, PassingThrough(downstream), StartUpdating(ts[0], updater))
        == Feed(ContinueNext(sm), Ok(Buffering(downstream, w0, updater)), [ts[0]]);
    FeedAppend(ContinueNext(sm), Ok(Buffering(downstream, w0, updater)), [ts[0]], ts[1..]);
    assert [ts[0]] + ts[1..] == ts;
    BufferingWeaves(sm, downstream, w0, updater, ts);
    Writers.WovenRoundTrip(b);
  }

  /** The filter's result: the downstream state, which only a filter passing through again has. */
  function Terminal<S>(state: UpdaterState<S>): (r: Result<S>)
    ensures r.Ok? <==> state.PassingThrough?
    ensures r.Ok? ==> r.value == state.downstreamState
    ensures r.Err? ==> r.error == IllegalState(ILLEGAL_TERMINAL_STATE)
  {
    if state.PassingThrough? then Ok(state.downstreamState) else Err(IllegalState(ILLEGAL_TERMINAL_STATE))
  }

  /** `updatingFilter`: the position-aware state machine driving the updater state machine. */
  function FilterStep<S>(updater: Segments.Updater, sm: (S, Token) -> S,
                         s: (Tracked, UpdaterState<S>), t: Token): (r: Result<(Tracked, UpdaterState<S>)>)
    ensures r.Ok? ==> Track(s.0, t) == Ok(r.value.0)
    ensures r.Ok? ==> UpdatingInterpreter(updater, r.value.0, t).Ok?
    ensures r.Ok? ==> UpdaterStep(sm, s.1, UpdatingInterpreter(updater, r.value.0, t).value) == Ok(r.value.1)
  {
    PositionAwareStep((tracked: Tracked, token: Token) => UpdatingInterpreter(updater, tracked, token),
                      (state: UpdaterState<S>, input: UpdaterToken) => UpdaterStep(sm, state, input), s, t)
  }

  /**
   * With the empty path over a lone scalar, the scalar's token arrives at the binding point
   * and starts updating, and nothing ends it: the filter's result is an exception.
   */
  lemma ScalarAtRootIsNeverFlushed<S>(updater: Segments.Updater, sm: (S, Token) -> S, downstream: S, n: Decimal)
    ensures var start := (Start([]), Initial(downstream));
      var r := FilterStep(updater, sm, start, NumberValue(n));
      && r.Ok? && r.value.1.Buffering?
      && Terminal(r.value.1) == Err(IllegalState(ILLEGAL_TERMINAL_STATE))
  {
  }
}
