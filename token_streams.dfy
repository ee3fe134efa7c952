/**
 * The streaming tokens, the token sequence a basket is written as, and `writeTo`, which
 * replays a basket into any state machine that consumes tokens.
 */
module TokenStreams {
  import opened Values
  import PropertySets

  datatype Token =
    | BeginObject
    | BeginArray
    | End
    | NullValue
    | TrueValue
    | FalseValue
    | Key(key: string)
    | StringValue(stringValue: string)
    | NumberValue(numberValue: Decimal)

  predicate IsBegin(t: Token) {
    t.BeginObject? || t.BeginArray?
  }

  /** The token a scalar basket is written as. */
  function ScalarToken(b: Basket): (t: Token)
    requires !IsStruct(b)
    ensures !IsBegin(t) && !t.End? && !t.Key?
  {
    match b
    case StringBasket(s) => StringValue(s)
    case NumberBasket(n) => NumberValue(n)
    case TrueBasket => TrueValue
    case FalseBasket => FalseValue
    case NullBasket => NullValue
  }

  /** Feeding tokens one at a time to a state machine, from state `s`. */
  function Feed<S>(sm: (S, Token) -> S, s: S, ts: seq<Token>): S
    decreases |ts|
  {
    if |ts| == 0 then s else sm(Feed(sm, s, ts[..|ts| - 1]), ts[|ts| - 1])
  }

  /** Feeding two streams one after the other is feeding their concatenation. */
  lemma {:induction false} FeedAppend<S>(sm: (S, Token) -> S, s: S, a: seq<Token>, b: seq<Token>)
    ensures Feed(sm, s, a + b) == Feed(sm, Feed(sm, s, a), b)
    decreases |b|
  {
    if |b| == 0 {
      assert a + b == a;
    } else {
      FeedAppend(sm, s, a, b[..|b| - 1]);
      assert (a + b)[..|a + b| - 1] == a + b[..|b| - 1];
    }
  }

  lemma FeedOne<S>(sm: (S, Token) -> S, s: S, t: Token)
    ensures Feed(sm, s, [t]) == sm(s, t)
  {
    assert [t][..0] == [];
  }

  /** The tokens `writeTo` sends for a basket: a scalar token, or a bracketed sequence of the children. */
  function Tokens(b: Basket): seq<Token>
    decreases b, 1
  {
    match b
    case ArrayBasket(items) => [BeginArray] + ItemTokens(b, |items|) + [End]
    case ObjectBasket(ps) => [BeginObject] + EntryTokens(b, |PropertySets.Entries(ps)|) + [End]
    case _ => [ScalarToken(b)]
  }

  /** The tokens of the first `n` items of an array, in order. */
  function ItemTokens(parent: Basket, n: nat): seq<Token>
    requires parent.ArrayBasket? && n <= |parent.contents|
    decreases parent, 0, n
  {
    if n == 0 then [] else ItemTokens(parent, n - 1) + Tokens(parent.contents[n - 1])
  }

  /** The tokens of the first `n` entries of an object: each value preceded by its key. */
  function EntryTokens(parent: Basket, n: nat): seq<Token>
    requires parent.ObjectBasket? && n <= |PropertySets.Entries(parent.properties)|
    decreases parent, 0, n
  {
    if n == 0 then []
    else
      var e := PropertySets.Entries(parent.properties)[n - 1];
      EntryTokens(parent, n - 1) + [Key(e.0)] + Tokens(e.1)
  }

  /**
   * `writeTo`: a scalar is one token; an array is BeginArray, a fold of its items, End; an
   * object is BeginObject, a fold of key-then-value over its entries, End.
   */
  function WriteTo<S>(b: Basket, state: S, sm: (S, Token) -> S): S
    decreases b, 1
  {
    match b
    case ArrayBasket(items) => sm(WriteItems(b, |items|, sm(state, BeginArray), sm), End)
    case ObjectBasket(ps) =>
      sm(WriteEntries(b, |PropertySets.Entries(ps)|, sm(state, BeginObject), sm), End)
    case _ => sm(state, ScalarToken(b))
  }

  function WriteItems<S>(parent: Basket, n: nat, state: S, sm: (S, Token) -> S): S
    requires parent.ArrayBasket? && n <= |parent.contents|
    decreases parent, 0, n
  {
    if n == 0 then state else WriteTo(parent.contents[n - 1], WriteItems(parent, n - 1, state, sm), sm)
  }

  function WriteEntries<S>(parent: Basket, n: nat, state: S, sm: (S, Token) -> S): S
    requires parent.ObjectBasket? && n <= |PropertySets.Entries(parent.properties)|
    decreases parent, 0, n
  {
    if n == 0 then state
    else
      var e := PropertySets.Entries(parent.properties)[n - 1];
      WriteTo(e.1, sm(WriteEntries(parent, n - 1, state, sm), Key(e.0)), sm)
  }

  /** Writing a basket to a state machine is feeding it the basket's tokens. */
  lemma {:induction false} WriteToFeeds<S>(b: Basket, state: S, sm: (S, Token) -> S)
    ensures WriteTo(b, state, sm) == Feed(sm, state, Tokens(b))
    decreases b, 1
  {
    match b
    case ArrayBasket(items) =>
      var body := ItemTokens(b, |items|);
      WriteItemsFeed(b, |items|, sm(state, BeginArray), sm);
      FeedOne(sm, state, BeginArray);
      FeedAppend(sm, state, [BeginArray], body);
      FeedAppend(sm, state, [BeginArray] + body, [End]);
      FeedOne(sm, Feed(sm, state, [BeginArray] + body), End);
    case ObjectBasket(ps) =>
      var body := EntryTokens(b, |PropertySets.Entries(ps)|);
      WriteEntriesFeed(b, |PropertySets.Entries(ps)|, sm(state, BeginObject), sm);
      FeedOne(sm, state, BeginObject);
      FeedAppend(sm, state, [BeginObject], body);
      FeedAppend(sm, state, [BeginObject] + body, [End]);
      FeedOne(sm, Feed(sm, state, [BeginObject] + body), End);
    case _ =>
      FeedOne(sm, state, ScalarToken(b));
  }

  lemma {:induction false} WriteItemsFeed<S>(parent: Basket, n: nat, state: S, sm: (S, Token) -> S)
    requires parent.ArrayBasket? && n <= |parent.contents|
    ensures WriteItems(parent, n, state, sm) == Feed(sm, state, ItemTokens(parent, n))
    decreases parent, 0, n
  {
    if n > 0 {
      WriteItemsFeed(parent, n - 1, state, sm);
      WriteToFeeds(parent.contents[n - 1], WriteItems(parent, n - 1, state, sm), sm);
      FeedAppend(sm, state, ItemTokens(parent, n - 1), Tokens(parent.contents[n - 1]));
    }
  }

  lemma {:induction false} WriteEntriesFeed<S>(parent: Basket, n: nat, state: S, sm: (S, Token) -> S)
    requires parent.ObjectBasket? && n <= |PropertySets.Entries(parent.properties)|
    ensures WriteEntries(parent, n, state, sm) == Feed(sm, state, EntryTokens(parent, n))
    decreases parent, 0, n
  {
    if n > 0 {
      var e := PropertySets.Entries(parent.properties)[n - 1];
      var before := EntryTokens(parent, n - 1);
      WriteEntriesFeed(parent, n - 1, state, sm);
      var keyed := sm(WriteEntries(parent, n - 1, state, sm), Key(e.0));
      WriteToFeeds(e.1, keyed, sm);
      FeedOne(sm, Feed(sm, state, before), Key(e.0));
      FeedAppend(sm, state, before, [Key(e.0)]);
      FeedAppend(sm, state, before + [Key(e.0)], Tokens(e.1));
    }
  }

  /** How many containers a token opens (+1) or closes (-1). */
  function Change(t: Token): int {
    if IsBegin(t) then 1 else if t.End? then -1 else 0
  }

  /** Containers opened minus containers closed. */
  function Level(ts: seq<Token>): int
    decreases |ts|
  {
    if |ts| == 0 then 0 else Level(ts[..|ts| - 1]) + Change(ts[|ts| - 1])
  }

  lemma {:induction false} LevelAppend(a: seq<Token>, b: seq<Token>)
    ensures Level(a + b) == Level(a) + Level(b)
    decreases |b|
  {
    if |b| == 0 {
      assert a + b == a;
    } else {
      LevelAppend(a, b[..|b| - 1]);
      assert (a + b)[..|a + b| - 1] == a + b[..|b| - 1];
    }
  }

  /** Never closes more than it has opened, and ends having closed everything it opened. */
  predicate Balanced(ts: seq<Token>) {
    && Level(ts) == 0
    && forall n | 0 <= n <= |ts| :: Level(ts[..n]) >= 0
  }

  /** Balanced, and what the first token opens stays open until the last token. */
  predicate Enclosed(ts: seq<Token>) {
    && |ts| > 0
    && Level(ts) == 0
    && forall n | 0 < n < |ts| :: Level(ts[..n]) > 0
  }

  lemma BalancedAppend(a: seq<Token>, b: seq<Token>)
    requires Balanced(a) && Balanced(b)
    ensures Balanced(a + b)
  {
    LevelAppend(a, b);
    forall n | 0 <= n <= |a + b|
      ensures Level((a + b)[..n]) >= 0
    {
      if n <= |a| {
        assert (a + b)[..n] == a[..n];
      } else {
        assert (a + b)[..n] == a + b[..n - |a|];
        LevelAppend(a, b[..n - |a|]);
      }
    }
  }

  lemma EnclosedIsBalanced(ts: seq<Token>)
    requires Enclosed(ts)
    ensures Balanced(ts)
  {
    assert ts[..|ts|] == ts;
  }

  /** Bracketing a balanced stream with a Begin and an End encloses it. */
  lemma Bracketed(open: Token, body: seq<Token>)
    requires IsBegin(open) && Balanced(body)
    ensures Enclosed([open] + body + [End])
  {
    var ts := [open] + body + [End];
    LevelAppend([open], body);
    LevelAppend([open] + body, [End]);
    assert Level([open]) == 1 by { assert [open][..0] == []; }
    assert Level([End]) == -1 by { assert [End][..0] == []; }
    forall n | 0 < n < |ts|
      ensures Level(ts[..n]) > 0
    {
      assert ts[..n] == [open] + body[..n - 1];
      LevelAppend([open], body[..n - 1]);
    }
  }

  /**
   * The stream `writeTo` produces is well nested: every Begin has exactly one End, and the
   * first token of a container is closed only by its last one. A scalar is one token that
   * opens and closes nothing.
   */
  lemma {:induction false} TokensNested(b: Basket)
    ensures Enclosed(Tokens(b))
    ensures IsStruct(b) <==> IsBegin(Tokens(b)[0])
    ensures IsStruct(b) <==> Tokens(b)[|Tokens(b)| - 1].End?
    decreases b, 1
  {
    match b
    case ArrayBasket(items) =>
      ItemsBalanced(b, |items|);
      Bracketed(BeginArray, ItemTokens(b, |items|));
    case ObjectBasket(ps) =>
      EntriesBalanced(b, |PropertySets.Entries(ps)|);
      Bracketed(BeginObject, EntryTokens(b, |PropertySets.Entries(ps)|));
    case _ =>
      assert Level(Tokens(b)) == 0 by { assert Tokens(b)[..0] == []; }
  }

  lemma {:induction false} ItemsBalanced(parent: Basket, n: nat)
    requires parent.ArrayBasket? && n <= |parent.contents|
    ensures Balanced(ItemTokens(parent, n))
    decreases parent, 0, n
  {
    if n > 0 {
      ItemsBalanced(parent, n - 1);
      TokensNested(parent.contents[n - 1]);
      EnclosedIsBalanced(Tokens(parent.contents[n - 1]));
      BalancedAppend(ItemTokens(parent, n - 1), Tokens(parent.contents[n - 1]));
    }
  }

  lemma {:induction false} EntriesBalanced(parent: Basket, n: nat)
    requires parent.ObjectBasket? && n <= |PropertySets.Entries(parent.properties)|
    ensures Balanced(EntryTokens(parent, n))
    decreases parent, 0, n
  {
    if n > 0 {
      var e := PropertySets.Entries(parent.properties)[n - 1];
      EntriesBalanced(parent, n - 1);
      assert Balanced([Key(e.0)]) by {
        assert [Key(e.0)][..0] == [];
        assert [Key(e.0)][..1] == [Key(e.0)];
      }
      BalancedAppend(EntryTokens(parent, n - 1), [Key(e.0)]);
      TokensNested(e.1);
      EnclosedIsBalanced(Tokens(e.1));
      BalancedAppend(EntryTokens(parent, n - 1) + [Key(e.0)], Tokens(e.1));
    }
  }
}
