/**
 * The projecting filter: an interpreter that turns each token, together with the tracking
 * state it leads to, into a projector token, and `ProjectorState`, which either ignores
 * tokens or buffers them, counting how deep it is, into a basket whose projections are
 * handed one by one to a downstream state machine once the basket is closed.
 */
module ProjectingFilter {
  import opened Outcomes
  import opened Values
  import opened TokenStreams
  import opened PathBinding
  import opened PositionTracking
  import opened ProjectionResults
  import Writers
  import Segments
  import PathProjection

  /** What the interpreter tells the projector state machine to do with a token. */
  datatype ProjectorToken =
    | DoNothing
    | StartProjecting(projector: Segments.Projector, wrappedToken: Token)
    | ContinueProjecting(wrappedToken: Token)

  /**
   * `projectingInterpreter`: at a complete binding point projecting starts with the identity
   * projector, at a conditional one with the conditional head's item projector over the
   * rest of the path, except that an End there does nothing; deeper inside such a binding
   * every token continues projecting; under any other binding nothing is done.
   */
  function ProjectingInterpreter(s: Tracked, t: Token): (r: Result<ProjectorToken>)
    ensures !s.binding.Complete? && !s.binding.Conditional? ==> r == Ok(DoNothing)
    ensures (s.binding.Complete? || s.binding.Conditional?) && IsBindingPoint(s) && t.End? ==> r == Ok(DoNothing)
    ensures s.binding.Complete? && IsBindingPoint(s) && !t.End? ==> r == Ok(StartProjecting(Segments.Identity(), t))
    ensures (s.binding.Complete? || s.binding.Conditional?) && !IsBindingPoint(s) ==> r == Ok(ContinueProjecting(t))
    ensures s.binding.Conditional? && IsBindingPoint(s) && !t.End? ==>
      var item := PathProjection.ItemProjector(s.binding.conditionalPath[0], s.binding.conditionalPath[1..]);
      && (r.Ok? <==> item.Ok?)
      && (r.Ok? ==> r.value.StartProjecting? && r.value.wrappedToken == t && r.value.projector == item.value)
    ensures r.Err? ==> r.error == UnsupportedOperation("Cannot create item projector for non-conditional path segment")
  {
    match s.binding
    case Complete(_, _) =>
      if !IsBindingPoint(s) then Ok(ContinueProjecting(t))
      else if t.End? then Ok(DoNothing)
      else Ok(StartProjecting(Segments.Identity(), t))
    case Conditional(_, _, path) =>
      if !IsBindingPoint(s) then Ok(ContinueProjecting(t))
      else if t.End? then Ok(DoNothing)
      else
        var item :- PathProjection.ItemProjector(path[0], path[1..]);
        Ok(StartProjecting(item, t))
    case _ => Ok(DoNothing)
  }

  /**
   * `ProjectorState`: doing nothing, or buffering into a weaver with the number of
   * containers opened and not yet closed, the downstream state held until the projections
   * of the finished basket are handed to it.
   */
  datatype ProjectorState<S> =
    | DoingNothing(downstreamState: S)
    | Buffering(downstreamState: S, weavingState: Writers.Weaver, depth: int, projector: Segments.Projector)

  const CONTINUE_WHILE_IDLE: string := "ContinueProjecting received while doing nothing"
  const NOTHING_WHILE_PROJECTING: string := "DoNothing received while projecting"
  const START_WHILE_PROJECTING: string := "StartProjecting received while projecting"
  const ILLEGAL_TERMINAL_STATE: string := "Illegal terminal state"

  /** `ProjectorState.initial`: doing nothing, with the given downstream state. */
  function Initial<S>(downstream: S): (state: ProjectorState<S>)
    ensures state.DoingNothing? && state.downstreamState == downstream
  {
    DoingNothing(downstream)
  }

  /** Handing baskets one at a time, in order, to a state machine. */
  function Fold<S>(xs: seq<Basket>, s: S, sm: (S, Basket) -> S): S
    decreases |xs|
  {
    if |xs| == 0 then s else sm(Fold(xs[..|xs| - 1], s, sm), xs[|xs| - 1])
  }

  /** Folding two sequences one after the other is folding their concatenation. */
  lemma {:induction false} FoldAppend<S>(xs: seq<Basket>, ys: seq<Basket>, s: S, sm: (S, Basket) -> S)
    ensures Fold(xs + ys, s, sm) == Fold(ys, Fold(xs, s, sm), sm)
    decreases |ys|
  {
    if |ys| == 0 {
      assert xs + ys == xs;
    } else {
      FoldAppend(xs, ys[..|ys| - 1], s, sm);
      assert (xs + ys)[..|xs + ys| - 1] == xs + ys[..|ys| - 1];
    }
  }

  /** The downstream state machine of `Filters.projecting(lens)`: each basket is added as a single result. */
  function Collect(r: ProjectionResult<Basket>, b: Basket): ProjectionResult<Basket> {
    Add(r, OfSingle(b))
  }

  /** Collecting appends the handed baskets, in order, to the values already collected. */
  lemma {:induction false} CollectAppends(xs: seq<Basket>, r: ProjectionResult<Basket>)
    requires Valid(r)
    ensures Valid(Fold(xs, r, Collect))
    ensures Elements(Fold(xs, r, Collect)) == Elements(r) + xs
    decreases |xs|
  {
    if |xs| > 0 {
      var init := xs[..|xs| - 1];
      CollectAppends(init, r);
      AddConcatenates(Fold(init, r, Collect), OfSingle(xs[|xs| - 1]));
      assert init + [xs[|xs| - 1]] == xs;
    }
  }

  /**
   * `flush`: the projections of the woven basket are folded into the downstream state;
   * weaving an unfinished top-level value throws.
   */
  function Flush<S>(sm: (S, Basket) -> S, downstream: S, w: Writers.Weaver, projector: Segments.Projector): (r: Result<S>)
    ensures r.Ok? <==> Writers.Weave(w).Ok?
    ensures r.Ok? ==> r.value == Fold(Elements(projector(Writers.Weave(w).value)), downstream, sm)
  {
    var b :- Writers.Weave(w);
    Ok(Fold(Elements(projector(b)), downstream, sm))
  }

  /**
   * `receiveDownstreamToken` and `flushIfComplete`: the token is written to the weaver, a
   * Begin counting one container more and an End one less; once none is open the basket
   * is flushed and the state does nothing again.
   */
  function ReceiveDownstreamToken<S>(sm: (S, Basket) -> S, downstream: S, w: Writers.Weaver, depth: int,
                                     projector: Segments.Projector, t: Token): (r: Result<ProjectorState<S>>)
    ensures Writers.Step(w, t).Err? ==> r == Err(Writers.Step(w, t).error)
    ensures r.Ok? ==> Writers.Step(w, t).Ok?
    ensures r.Ok? && r.value.Buffering? ==>
      r.value == Buffering(downstream, Writers.Step(w, t).value, depth + Change(t), projector)
    ensures r.Ok? && r.value.Buffering? ==> depth + Change(t) != 0
    ensures r.Ok? && r.value.DoingNothing? ==> depth + Change(t) == 0
    ensures Writers.Step(w, t).Ok? && depth + Change(t) == 0 ==>
      r == (var f := Flush(sm, downstream, Writers.Step(w, t).value, projector);
            if f.Ok? then Ok(DoingNothing(f.value)) else Err(f.error))
  {
    var next :- Writers.Step(w, t);
    var newDepth := depth + Change(t);
    if newDepth == 0 then
      var flushed :- Flush(sm, downstream, next, projector);
      Ok(DoingNothing(flushed))
    else Ok(Buffering(downstream, next, newDepth, projector))
  }

  /**
   * `receive`: doing nothing takes DoNothing and StartProjecting, buffering only
   * ContinueProjecting, and anything else is an IllegalStateException. Starting buffers
   * from a fresh weaver with nothing open.
   */
  function Receive<S>(sm: (S, Basket) -> S, state: ProjectorState<S>, input: ProjectorToken): (r: Result<ProjectorState<S>>)
    ensures input.ContinueProjecting? && state.DoingNothing? ==> r == Err(IllegalState(CONTINUE_WHILE_IDLE))
    ensures input.DoNothing? && state.Buffering? ==> r == Err(IllegalState(NOTHING_WHILE_PROJECTING))
    ensures input.StartProjecting? && state.Buffering? ==> r == Err(IllegalState(START_WHILE_PROJECTING))
    ensures input.DoNothing? && state.DoingNothing? ==> r == Ok(state)
    ensures r.Ok? && r.value.Buffering? ==> r.value.downstreamState == state.downstreamState
  {
    match state
    case DoingNothing(downstream) =>
      (match input
       case DoNothing => Ok(state)
       case StartProjecting(projector, t) =>
         ReceiveDownstreamToken(sm, downstream, Writers.Weaving(), 0, projector, t)
       case ContinueProjecting(_) => Err(IllegalState(CONTINUE_WHILE_IDLE)))
    case Buffering(downstream, w, depth, projector) =>
      (match input
       case DoNothing => Err(IllegalState(NOTHING_WHILE_PROJECTING))
       case StartProjecting(_, _) => Err(IllegalState(START_WHILE_PROJECTING))
       case ContinueProjecting(t) => ReceiveDownstreamToken(sm, downstream, w, depth, projector, t))
  }

  /** Starting to project a token is continuing from a fresh buffer with nothing open. */
  lemma StartIsContinueFromFresh<S>(sm: (S, Basket) -> S, downstream: S, projector: Segments.Projector, t: Token)
    ensures Receive(sm, DoingNothing(downstream), StartProjecting(projector, t))
         == Receive(sm, Buffering(downstream, Writers.Weaving(), 0, projector), ContinueProjecting(t))
  {
  }

  /** The state machine fed a stream whose every token the interpreter continued projecting with. */
  function ContinueNext<S>(sm: (S, Basket) -> S): (Result<ProjectorState<S>>, Token) -> Result<ProjectorState<S>> {
    (r: Result<ProjectorState<S>>, t: Token) => if r.Err? then r else Receive(sm, r.value, ContinueProjecting(t))
  }

  /** A weaver's outcome as the buffering state holding it. */
  function Holding<S>(downstream: S, depth: int, projector: Segments.Projector, w: Result<Writers.Weaver>): Result<ProjectorState<S>> {
    if w.Err? then Err(w.error) else Ok(Buffering(downstream, w.value, depth, projector))
  }

  /** Every non-empty prefix of the stream leaves some container open, counting from `depth`. */
  predicate StaysOpen(depth: int, ts: seq<Token>) {
    forall k | 0 < k <= |ts| :: depth + Level(ts[..k]) != 0
  }

  /** Containers that stay open over a stream stay open over all but its last token, and after it. */
  lemma StaysOpenBefore(depth: int, ts: seq<Token>)
    requires StaysOpen(depth, ts) && |ts| > 0
    ensures StaysOpen(depth, ts[..|ts| - 1])
    ensures depth + Level(ts[..|ts| - 1]) + Change(ts[|ts| - 1]) != 0
  {
    var init := ts[..|ts| - 1];
    forall k | 0 < k <= |init|
      ensures depth + Level(init[..k]) != 0
    {
      assert init[..k] == ts[..k];
    }
    assert ts[..|ts|] == ts;
  }

  /**
   * While containers stay open, continuing to project writes the stream to the buffered
   * weaver, counts what it opens and closes, and hands nothing downstream; the first
   * exception the weaver throws is the state machine's.
   */
  lemma {:induction false} BufferingWeaves<S>(sm: (S, Basket) -> S, downstream: S, w: Writers.Weaver, depth: int,
                                            projector: Segments.Projector, ts: seq<Token>)
    requires StaysOpen(depth, ts)
    ensures Feed(ContinueNext(sm), Ok(Buffering(downstream, w, depth, projector)), ts)
         == Holding(downstream, depth + Level(ts), projector, Feed(Writers.Next, Ok(w), ts))
    decreases |ts|
  {
    if |ts| > 0 {
      var init := ts[..|ts| - 1];
      StaysOpenBefore(depth, ts);
      BufferingWeaves(sm, downstream, w, depth, projector, init);
    }
  }

  /**
   * Projecting a whole well-formed basket, from a fresh buffer: nothing is handed
   * downstream until its last token, and then exactly its projections, in order, after
   * which the state does nothing again.
   */
  lemma ProjectsWholeBasket<S>(sm: (S, Basket) -> S, downstream: S, projector: Segments.Projector, b: Basket)
    requires WellFormed(b)
    ensures Feed(ContinueNext(sm), Ok(Buffering(downstream, Writers.Weaving(), 0, projector)), Tokens(b))
         == Ok(DoingNothing(Fold(Elements(projector(b)), downstream, sm)))
  {
    TokensNested(b);
    Writers.WovenRoundTrip(b);
    FlushesAtClose(sm, downstream, projector, Tokens(b), b);
  }

  /** A well-nested stream that weaves the basket `b` flushes `b` exactly at its last token. */
  lemma FlushesAtClose<S>(sm: (S, Basket) -> S, downstream: S, projector: Segments.Projector, ts: seq<Token>, b: Basket)
    requires Enclosed(ts)
    requires Feed(Writers.Next, Ok(Writers.Weaving()), ts) == Ok(Writers.ValueWeaver(Some(b)))
    ensures Feed(ContinueNext(sm), Ok(Buffering(downstream, Writers.Weaving(), 0, projector)), ts)
         == Ok(DoingNothing(Fold(Elements(projector(b)), downstream, sm)))
  {
    var init := ts[..|ts| - 1];
    EnclosedStaysOpen(ts);
    BufferingWeaves(sm, downstream, Writers.Weaving(), 0, projector, init);
    ClosingToken(sm, downstream, projector, Feed(Writers.Next, Ok(Writers.Weaving()), init), Level(init), ts[|ts| - 1], b);
  }

  /** A well-nested stream keeps its first container open until its last token, which closes it. */
  lemma EnclosedStaysOpen(ts: seq<Token>)
    requires Enclosed(ts)
    ensures StaysOpen(0, ts[..|ts| - 1])
    ensures Level(ts[..|ts| - 1]) + Change(ts[|ts| - 1]) == 0
  {
    var init := ts[..|ts| - 1];
    forall k | 0 < k <= |init|
      ensures Level(init[..k]) != 0
    {
      assert init[..k] == ts[..k];
    }
  }

  /** The token that closes the last open container flushes the basket the weaver then holds. */
  lemma ClosingToken<S>(sm: (S, Basket) -> S, downstream: S, projector: Segments.Projector,
                        w: Result<Writers.Weaver>, depth: int, t: Token, b: Basket)
    requires Writers.Next(w, t) == Ok(Writers.ValueWeaver(Some(b)))
    requires depth + Change(t) == 0
    ensures ContinueNext(sm)(Holding(downstream, depth, projector, w), t)
         == Ok(DoingNothing(Fold(Elements(projector(b)), downstream, sm)))
  {
  }

  /**
   * Started by the token that opens it and continued with the rest, a whole well-formed
   * basket hands exactly its projections downstream, in order, and ends doing nothing.
   */
  lemma ProjectsStartedBasket<S>(sm: (S, Basket) -> S, downstream: S, projector: Segments.Projector, b: Basket)
    requires WellFormed(b)
    ensures var ts := Tokens(b);
      Feed(ContinueNext(sm), Receive(sm, DoingNothing(downstream), StartProjecting(projector, ts[0])), ts[1..])
        == Ok(DoingNothing(Fold(Elements(projector(b)), downstream, sm)))
  {
    var ts := Tokens(b);
    TokensNested(b);
    var begun := Ok(Buffering(downstream, Writers.Weaving(), 0, projector));
    StartIsContinueFromFresh(sm, downstream, projector, ts[0]);
    FeedOne(ContinueNext(sm), begun, ts[0]);
    FeedAppend(ContinueNext(sm), begun, [ts[0]], ts[1..]);
    assert [ts[0]] + ts[1..] == ts;
    ProjectsWholeBasket(sm, downstream, projector, b);
  }

  /** The filter's result: the downstream state, which only a filter doing nothing has. */
  function Terminal<S>(state: ProjectorState<S>): (r: Result<S>)
    ensures r.Ok? <==> state.DoingNothing?
    ensures r.Ok? ==> r.value == state.downstreamState
    ensures r.Err? ==> r.error == IllegalState(ILLEGAL_TERMINAL_STATE)
  {
    if state.DoingNothing? then Ok(state.downstreamState) else Err(IllegalState(ILLEGAL_TERMINAL_STATE))
  }

  /** `Filters.projecting`: the position-aware state machine driving the projector state machine. */
  function FilterStep<S>(sm: (S, Basket) -> S, s: (Tracked, ProjectorState<S>), t: Token): (r: Result<(Tracked, ProjectorState<S>)>)
    ensures r.Ok? ==> Track(s.0, t) == Ok(r.value.0)
    ensures r.Ok? ==> ProjectingInterpreter(r.value.0, t).Ok?
    ensures r.Ok? ==> Receive(sm, s.1, ProjectingInterpreter(r.value.0, t).value) == Ok(r.value.1)
  {
    PositionAwareStep((tracked: Tracked, token: Token) => ProjectingInterpreter(tracked, token),
                      (state: ProjectorState<S>, input: ProjectorToken) => Receive(sm, state, input), s, t)
  }

  /**
   * With the empty path, a lone scalar is at the binding point once its token has arrived,
   * so it is projected and handed downstream at once.
   */
  lemma RootScalarIsProjected<S>(sm: (S, Basket) -> S, downstream: S, n: Decimal)
    ensures FilterStep(sm, (Start([]), Initial(downstream)), NumberValue(n))
         == Ok((Start([]), DoingNothing(sm(downstream, NumberBasket(n)))))
  {
    var s0 := Start([]);
    var t := NumberValue(n);
    var w := Writers.ValueWeaver(Some(NumberBasket(n)));
    assert Track(s0, t) == Ok(s0);
    assert ProjectingInterpreter(s0, t) == Ok(StartProjecting(Segments.Identity(), t));
    Writers.TopLevelRefuses(NumberBasket(n), NumberBasket(n), "");
    assert Writers.Step(Writers.Weaving(), t) == Ok(w);
    assert Elements(Segments.Identity()(NumberBasket(n))) == [NumberBasket(n)];
    assert [NumberBasket(n)][..0] == [];
    assert Writers.Weave(w) == Ok(NumberBasket(n));
    assert Fold([NumberBasket(n)], downstream, sm) == sm(Fold([], downstream, sm), NumberBasket(n));
    assert Flush(sm, downstream, w, Segments.Identity()) == Ok(sm(downstream, NumberBasket(n)));
    assert Receive(sm, Initial(downstream), StartProjecting(Segments.Identity(), t)) == Ok(DoingNothing(sm(downstream, NumberBasket(n))));
  }

  /**
   * With the empty path, the token opening a root array leads to a position one level below
   * the binding point, so the interpreter continues a projection that never started.
   */
  lemma RootArrayIsRefused<S>(sm: (S, Basket) -> S, downstream: S)
    ensures FilterStep(sm, (Start([]), Initial(downstream)), Token.BeginArray) == Err(IllegalState(CONTINUE_WHILE_IDLE))
  {
  }
}
