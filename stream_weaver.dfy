/**
 * `StreamWeaver`: a state machine that weaves a token stream back into a basket, keeping a
 * stack of the arrays and objects still open, the last key given, and the finished result.
 * As written, the last key is shared by every open object: a key given inside a nested
 * object is still the key when that object is added to its parent. The weaver the rest of
 * this model uses remembers, for each open container, the key pending when it began.
 */
module StreamWeaving {
  import opened Outcomes
  import opened Values
  import opened TokenStreams
  import PropertySets
  import Writers

  datatype StructType = OBJECT | ARRAY

  /** An open container: the items of an array or the entries of an object, in order. */
  datatype Struct = Struct(structType: StructType, contents: seq<Basket>, entries: seq<(string, Basket)>)

  const END_OUTSIDE_STRUCT: string := "End received while not building object or array"

  /** `StreamWeaverStruct.basket`: an object is built from its entries, an array from its items. */
  function StructBasket(s: Struct): (b: Basket)
    ensures IsStruct(b)
    ensures s.structType == StructType.ARRAY ==> b == ArrayBasket(s.contents)
    ensures s.structType == StructType.OBJECT ==> b == ObjectBasket(PropertySets.OfEntries(s.entries))
  {
    if s.structType == StructType.OBJECT then ObjectBasket(PropertySets.OfEntries(s.entries))
    else ArrayBasket(s.contents)
  }

  /** A finished value added to an open container: under `key` in an object, at the end of an array. */
  function Collect(s: Struct, key: string, b: Basket): (r: Struct)
    ensures r.structType == s.structType
    ensures s.structType == StructType.OBJECT ==> r.entries == s.entries + [(key, b)] && r.contents == s.contents
    ensures s.structType == StructType.ARRAY ==> r.contents == s.contents + [b] && r.entries == s.entries
  {
    if s.structType == StructType.OBJECT then s.(entries := s.entries + [(key, b)])
    else s.(contents := s.contents + [b])
  }

  /** A container as `push` leaves it: of the given type and empty. */
  function Opened(structType: StructType): (s: Struct)
    ensures s.structType == structType && s.contents == [] && s.entries == []
  {
    Struct(structType, [], [])
  }

  // ---------------------------------------------------------------------------------
  // As written: one key for all open objects.
  // ---------------------------------------------------------------------------------

  datatype SharedKeyState = SharedKeyState(key: string, result: Basket, structStack: seq<Struct>)

  /** `complete(basket)` as written: the result at top level, else added under the shared key. */
  function CompleteSharedKey(w: SharedKeyState, b: Basket): (r: SharedKeyState)
    ensures r.key == w.key
    ensures |w.structStack| == 0 ==> r == w.(result := b)
    ensures |w.structStack| > 0 ==>
      var n := |w.structStack|;
      r == w.(structStack := w.structStack[..n - 1] + [Collect(w.structStack[n - 1], w.key, b)])
  {
    var n := |w.structStack|;
    if n == 0 then w.(result := b)
    else w.(structStack := w.structStack[..n - 1] + [Collect(w.structStack[n - 1], w.key, b)])
  }

  /** `streamWeaverStateMachine` as written. */
  function StepSharedKey(w: SharedKeyState, t: Token): (r: Result<SharedKeyState>)
    ensures r.Err? <==> t.End? && |w.structStack| == 0
    ensures r.Err? ==> r.error == IllegalArgument(END_OUTSIDE_STRUCT)
    ensures t.End? && r.Ok? ==>
      var n := |w.structStack|;
      r.value == CompleteSharedKey(w.(structStack := w.structStack[..n - 1]), StructBasket(w.structStack[n - 1]))
  {
    match t
    case End =>
      var n := |w.structStack|;
      if n == 0 then Err(IllegalArgument(END_OUTSIDE_STRUCT))
      else Ok(CompleteSharedKey(w.(structStack := w.structStack[..n - 1]), StructBasket(w.structStack[n - 1])))
    case Key(k) => Ok(w.(key := k))
    case BeginObject => Ok(w.(structStack := w.structStack + [Opened(StructType.OBJECT)]))
    case BeginArray => Ok(w.(structStack := w.structStack + [Opened(StructType.ARRAY)]))
    case _ => Ok(CompleteSharedKey(w, Writers.ScalarBasket(t)))
  }

  /** The same step on the outcome so far. */
  function NextSharedKey(r: Result<SharedKeyState>, t: Token): Result<SharedKeyState> {
    if r.Err? then r else StepSharedKey(r.value, t)
  }

  /** The number 1, the object `{"a": 1}`, and the object `{"x": {"a": 1}}`. */
  function One(): Basket {
    NumberBasket(Decimal(1, 0))
  }

  function InnerExample(): Basket {
    ObjectBasket(PropertySet(["a"], map["a" := One()]))
  }

  function NestedExample(): (b: Basket)
    ensures WellFormed(b)
  {
    ObjectBasket(PropertySet(["x"], map["x" := InnerExample()]))
  }

  /** As written: the inner object begins while `x` is the key, and its own key `a` replaces it. */
  lemma SharedKeyOpensInner()
    ensures StepSharedKey(SharedKeyState("", NullBasket, []), Token.BeginObject)
         == Ok(SharedKeyState("", NullBasket, [Opened(StructType.OBJECT)]))
    ensures StepSharedKey(SharedKeyState("", NullBasket, [Opened(StructType.OBJECT)]), Key("x"))
         == Ok(SharedKeyState("x", NullBasket, [Opened(StructType.OBJECT)]))
    ensures StepSharedKey(SharedKeyState("x", NullBasket, [Opened(StructType.OBJECT)]), Token.BeginObject)
         == Ok(SharedKeyState("x", NullBasket, [Opened(StructType.OBJECT), Opened(StructType.OBJECT)]))
    ensures StepSharedKey(SharedKeyState("x", NullBasket, [Opened(StructType.OBJECT), Opened(StructType.OBJECT)]), Key("a"))
         == Ok(SharedKeyState("a", NullBasket, [Opened(StructType.OBJECT), Opened(StructType.OBJECT)]))
  {
    var o := Opened(StructType.OBJECT);
    assert [] + [o] == [o];
    assert [o] + [o] == [o, o];
  }

  /** As written: `1` is filed under `a`, and so, when the inner object closes, is the inner object. */
  lemma SharedKeyClosesInner()
    ensures StepSharedKey(SharedKeyState("a", NullBasket, [Opened(StructType.OBJECT), Opened(StructType.OBJECT)]), NumberValue(Decimal(1, 0)))
         == Ok(SharedKeyState("a", NullBasket, [Opened(StructType.OBJECT), Struct(StructType.OBJECT, [], [("a", One())])]))
    ensures StepSharedKey(SharedKeyState("a", NullBasket, [Opened(StructType.OBJECT), Struct(StructType.OBJECT, [], [("a", One())])]), End)
         == Ok(SharedKeyState("a", NullBasket, [Struct(StructType.OBJECT, [], [("a", ObjectBasket(PropertySets.OfEntries([("a", One())])))])]))
  {
    var o := Opened(StructType.OBJECT);
    var filled := Struct(StructType.OBJECT, [], [("a", One())]);
    assert [] + [("a", One())] == [("a", One())];
    assert Collect(o, "a", One()) == filled;
    assert [o, o][..1] + [Collect(o, "a", One())] == [o, filled];
    assert [o, filled][..1] == [o];
    assert StructBasket(filled) == ObjectBasket(PropertySets.OfEntries([("a", One())]));
    assert [] + [("a", StructBasket(filled))] == [("a", StructBasket(filled))];
    assert [o][..0] + [Collect(o, "a", StructBasket(filled))] == [Struct(StructType.OBJECT, [], [("a", StructBasket(filled))])];
  }

  /** `{"a": {"a": 1}}` as the as-written weaver builds it. */
  function MisfiledExample(): Basket {
    ObjectBasket(PropertySets.OfEntries([("a", ObjectBasket(PropertySets.OfEntries([("a", One())])))]))
  }

  /** The inner object's one entry: the key `a`, then the number 1. */
  lemma InnerEntryTokens(start: Result<SharedKeyState>)
    ensures WriteEntries(InnerExample(), 1, start, NextSharedKey) == WriteTo(One(), NextSharedKey(start, Key("a")), NextSharedKey)
  {
    assert PropertySets.Entries(InnerExample().properties) == [("a", One())];
  }

  /** As written: inside the inner object, `a` then `1` files `1` under `a`. */
  lemma SharedKeyFillsInner()
    ensures var o := Opened(StructType.OBJECT);
      WriteEntries(InnerExample(), 1, Ok(SharedKeyState("x", NullBasket, [o, o])), NextSharedKey)
        == Ok(SharedKeyState("a", NullBasket, [o, Struct(StructType.OBJECT, [], [("a", One())])]))
  {
    var o := Opened(StructType.OBJECT);
    var keyed := SharedKeyState("a", NullBasket, [o, o]);
    InnerEntryTokens(Ok(SharedKeyState("x", NullBasket, [o, o])));
    SharedKeyOpensInner();
    SharedKeyClosesInner();
    assert WriteTo(One(), Ok(keyed), NextSharedKey) == StepSharedKey(keyed, NumberValue(Decimal(1, 0)));
  }

  /** As written: the inner object's tokens, after the key `x`, leave it filed under `a`. */
  lemma SharedKeyWeavesInner()
    ensures WriteTo(InnerExample(), Ok(SharedKeyState("x", NullBasket, [Opened(StructType.OBJECT)])), NextSharedKey)
         == Ok(SharedKeyState("a", NullBasket, [Struct(StructType.OBJECT, [], [("a", ObjectBasket(PropertySets.OfEntries([("a", One())])))])]))
  {
    assert |PropertySets.Entries(InnerExample().properties)| == 1;
    SharedKeyOpensInner();
    SharedKeyFillsInner();
    SharedKeyClosesInner();
  }

  /** As written: the tokens of `{"x": {"a": 1}}` weave to `{"a": {"a": 1}}`. */
  lemma SharedKeyWeavesOuter()
    ensures WriteTo(NestedExample(), Ok(SharedKeyState("", NullBasket, [])), NextSharedKey)
         == Ok(SharedKeyState("a", MisfiledExample(), []))
  {
    var begun := SharedKeyState("", NullBasket, [Opened(StructType.OBJECT)]);
    var last := SharedKeyState("a", NullBasket, [Struct(StructType.OBJECT, [], [("a", ObjectBasket(PropertySets.OfEntries([("a", One())])))])]);
    assert PropertySets.Entries(NestedExample().properties) == [("x", InnerExample())];
    SharedKeyOpensInner();
    SharedKeyWeavesInner();
    assert NextSharedKey(WriteEntries(NestedExample(), 0, Ok(begun), NextSharedKey), Key("x")) == Ok(begun.(key := "x"));
    assert WriteEntries(NestedExample(), 1, Ok(begun), NextSharedKey) == Ok(last);
    assert StepSharedKey(last, End) == Ok(SharedKeyState("a", MisfiledExample(), []));
  }

  /**
   * Weaving the tokens of `{"x": {"a": 1}}` as written finishes without error, but the woven
   * object has no key `x`: its only key is `a`.
   */
  lemma SharedKeyMisfilesNestedObject()
    ensures var r := Feed(NextSharedKey, Ok(SharedKeyState("", NullBasket, [])), Tokens(NestedExample()));
      && r.Ok? && r.value.structStack == [] && r.value.result.ObjectBasket?
      && !PropertySets.ContainsKey(r.value.result.properties, "x")
      && PropertySets.ContainsKey(r.value.result.properties, "a")
  {
    WriteToFeeds(NestedExample(), Ok(SharedKeyState("", NullBasket, [])), NextSharedKey);
    SharedKeyWeavesOuter();
    var entries := [("a", ObjectBasket(PropertySets.OfEntries([("a", One())])))];
    PropertySets.OfEntriesLastValueWins(entries, "x");
    PropertySets.OfEntriesLastValueWins(entries, "a");
  }

  /** Corrected: the same tokens weave back to `{"x": {"a": 1}}`. */
  lemma RestoredKeyFilesNestedObject()
    ensures Feed(Next, Ok(Initial()), Tokens(NestedExample())) == Ok(WeaverState("", NestedExample(), []))
    ensures PropertySets.ContainsKey(NestedExample().properties, "x")
  {
    StreamRoundTrip(NestedExample());
  }

  // ---------------------------------------------------------------------------------
  // Corrected: each open container remembers the key pending when it began.
  // ---------------------------------------------------------------------------------

  /** An open container and the key that was pending in the enclosing one when it began. */
  datatype OpenStruct = OpenStruct(struct: Struct, outerKey: string)

  datatype WeaverState = WeaverState(key: string, result: Basket, structStack: seq<OpenStruct>)

  /** `StreamWeaverState()`: no key, a null result, and nothing open. */
  function Initial(): (w: WeaverState)
    ensures IsComplete(w) && w.key == "" && w.result == NullBasket
  {
    WeaverState("", NullBasket, [])
  }

  /** `isComplete`: no container is open. */
  predicate IsComplete(w: WeaverState) {
    |w.structStack| == 0
  }

  /**
   * `complete(basket)`: with nothing open the basket is the result; otherwise it is added to
   * the innermost open container, under the pending key in an object.
   */
  function Completed(w: WeaverState, b: Basket): (r: WeaverState)
    ensures r.key == w.key && |r.structStack| == |w.structStack|
    ensures IsComplete(w) ==> r.result == b
    ensures !IsComplete(w) ==>
      var n := |w.structStack|;
      && r.result == w.result
      && r.structStack[..n - 1] == w.structStack[..n - 1]
      && r.structStack[n - 1] == OpenStruct(Collect(w.structStack[n - 1].struct, w.key, b), w.structStack[n - 1].outerKey)
  {
    var n := |w.structStack|;
    if n == 0 then w.(result := b)
    else
      var top := w.structStack[n - 1];
      w.(structStack := w.structStack[..n - 1] + [OpenStruct(Collect(top.struct, w.key, b), top.outerKey)])
  }

  /** `clear`: nothing open any more. */
  function Cleared(w: WeaverState): (r: WeaverState)
    ensures IsComplete(r) && r.key == w.key && r.result == w.result
  {
    w.(structStack := [])
  }

  /** A container begins: it is pushed, empty, remembering the pending key. */
  function Begin(w: WeaverState, structType: StructType): (r: WeaverState)
    ensures r.key == w.key && r.result == w.result
    ensures r.structStack == w.structStack + [OpenStruct(Opened(structType), w.key)]
  {
    w.(structStack := w.structStack + [OpenStruct(Opened(structType), w.key)])
  }

  /**
   * The corrected state machine: an End outside any container is an IllegalArgumentException;
   * otherwise End pops the innermost container, restores the key that was pending when it
   * began, and completes its basket; a key becomes the pending key; Begin pushes; a scalar
   * completes.
   */
  function Step(w: WeaverState, t: Token): (r: Result<WeaverState>)
    ensures r.Err? <==> t.End? && IsComplete(w)
    ensures r.Err? ==> r.error == IllegalArgument(END_OUTSIDE_STRUCT)
    ensures r.Ok? ==> |r.value.structStack| == |w.structStack| + Change(t)
    ensures t.End? && r.Ok? ==>
      var top := w.structStack[|w.structStack| - 1];
      r.value == Completed(WeaverState(top.outerKey, w.result, w.structStack[..|w.structStack| - 1]), StructBasket(top.struct))
  {
    match t
    case End =>
      var n := |w.structStack|;
      if n == 0 then Err(IllegalArgument(END_OUTSIDE_STRUCT))
      else
        var top := w.structStack[n - 1];
        Ok(Completed(WeaverState(top.outerKey, w.result, w.structStack[..n - 1]), StructBasket(top.struct)))
    case Key(k) => Ok(w.(key := k))
    case BeginObject => Ok(Begin(w, StructType.OBJECT))
    case BeginArray => Ok(Begin(w, StructType.ARRAY))
    case _ => Ok(Completed(w, Writers.ScalarBasket(t)))
  }

  /** The same step on the outcome so far. */
  function Next(r: Result<WeaverState>, t: Token): Result<WeaverState> {
    if r.Err? then r else Step(r.value, t)
  }

  /**
   * Writing a well-formed basket into the weaver, whatever is open and whatever key is
   * pending, never throws and completes exactly that basket, leaving the pending key as it was.
   */
  lemma {:induction false} WritesBasket(w: WeaverState, b: Basket)
    requires WellFormed(b)
    ensures WriteTo(b, Ok(w), Next) == Ok(Completed(w, b))
    decreases b, 2
  {
    if b.ArrayBasket? {
      WritesArray(w, b);
    } else if b.ObjectBasket? {
      WritesObject(w, b);
    }
  }

  lemma {:induction false} WritesArray(w: WeaverState, b: Basket)
    requires b.ArrayBasket? && WellFormed(b)
    ensures WriteTo(b, Ok(w), Next) == Ok(Completed(w, b))
    decreases b, 1
  {
    var items := b.contents;
    assert Next(Ok(w), Token.BeginArray) == Ok(Begin(w, StructType.ARRAY));
    WritesItems(w, b, |items|);
    assert items[..|items|] == items;
  }

  lemma {:induction false} WritesObject(w: WeaverState, b: Basket)
    requires b.ObjectBasket? && WellFormed(b)
    ensures WriteTo(b, Ok(w), Next) == Ok(Completed(w, b))
    decreases b, 1
  {
    var es := PropertySets.Entries(b.properties);
    assert Next(Ok(w), Token.BeginObject) == Ok(Begin(w, StructType.OBJECT));
    WritesEntries(w, b, |es|);
    assert es[..|es|] == es;
    PropertySets.EntriesRoundTrip(b.properties);
  }

  /** With an array just begun, after its first `n` items they are the array's contents. */
  lemma {:induction false} WritesItems(w: WeaverState, parent: Basket, n: nat)
    requires parent.ArrayBasket? && n <= |parent.contents| && WellFormed(parent)
    ensures WriteItems(parent, n, Ok(Begin(w, StructType.ARRAY)), Next)
         == Ok(w.(structStack := w.structStack + [OpenStruct(Struct(StructType.ARRAY, parent.contents[..n], []), w.key)]))
    decreases parent, 0, n
  {
    if n > 0 {
      var items := parent.contents;
      WritesItems(w, parent, n - 1);
      WritesBasket(w.(structStack := w.structStack + [OpenStruct(Struct(StructType.ARRAY, items[..n - 1], []), w.key)]), items[n - 1]);
      Writers.SnocSlice(items, n);
    }
  }

  /** The key pending after the first `n` entries of an object: the last of their keys. */
  function KeyAfter(w: WeaverState, es: seq<(string, Basket)>, n: nat): string
    requires n <= |es|
  {
    if n == 0 then w.key else es[n - 1].0
  }

  /** With an object just begun, after its first `n` entries they are the object's entries. */
  lemma {:induction false} WritesEntries(w: WeaverState, parent: Basket, n: nat)
    requires parent.ObjectBasket? && WellFormed(parent)
    requires n <= |PropertySets.Entries(parent.properties)|
    ensures var es := PropertySets.Entries(parent.properties);
      WriteEntries(parent, n, Ok(Begin(w, StructType.OBJECT)), Next)
        == Ok(WeaverState(KeyAfter(w, es, n), w.result, w.structStack + [OpenStruct(Struct(StructType.OBJECT, [], es[..n]), w.key)]))
    decreases parent, 0, n
  {
    if n > 0 {
      var es := PropertySets.Entries(parent.properties);
      WritesEntries(w, parent, n - 1);
      PropertySets.EntryValue(parent.properties, n - 1);
      var keyed := WeaverState(es[n - 1].0, w.result, w.structStack + [OpenStruct(Struct(StructType.OBJECT, [], es[..n - 1]), w.key)]);
      WritesBasket(keyed, es[n - 1].1);
      EntryStep(WeaverState(KeyAfter(w, es, n - 1), w.result, w.structStack + [OpenStruct(Struct(StructType.OBJECT, [], es[..n - 1]), w.key)]),
                es[n - 1].0, es[n - 1].1);
      Writers.SnocSlice(es, n);
    }
  }

  /** A key and then its value's tokens add one entry under that key to the open object. */
  lemma EntryStep(w: WeaverState, k: string, v: Basket)
    requires |w.structStack| > 0 && w.structStack[|w.structStack| - 1].struct.structType == StructType.OBJECT
    requires WriteTo(v, Ok(w.(key := k)), Next) == Ok(Completed(w.(key := k), v))
    ensures var n := |w.structStack|;
      var top := w.structStack[n - 1];
      WriteTo(v, Next(Ok(w), Key(k)), Next)
        == Ok(WeaverState(k, w.result, w.structStack[..n - 1] + [OpenStruct(top.struct.(entries := top.struct.entries + [(k, v)]), top.outerKey)]))
  {
  }

  /**
   * Round trip: feeding a fresh weaver the tokens of a well-formed basket leaves nothing
   * open, no key pending, and exactly that basket as the result.
   */
  lemma StreamRoundTrip(b: Basket)
    requires WellFormed(b)
    ensures Feed(Next, Ok(Initial()), Tokens(b)) == Ok(WeaverState("", b, []))
  {
    WriteToFeeds(b, Ok(Initial()), Next);
    WritesBasket(Initial(), b);
  }

  /** The weaver's mutable state: the pending key, the result, and the stack of open containers. */
  class StreamWeaverState {
    var key: string
    var result: Basket
    var structStack: seq<OpenStruct>

    function Current(): WeaverState
      reads this
    {
      WeaverState(key, result, structStack)
    }

    constructor ()
      ensures Current() == Initial()
    {
      key := "";
      result := NullBasket;
      structStack := [];
    }

    predicate IsComplete()
      reads this
    {
      |structStack| == 0
    }

    method Complete(b: Basket)
      modifies this
      ensures Current() == Completed(old(Current()), b)
    {
      var n := |structStack|;
      if n == 0 {
        result := b;
      } else {
        var top := structStack[n - 1];
        structStack := structStack[..n - 1] + [OpenStruct(Collect(top.struct, key, b), top.outerKey)];
      }
    }

    method Clear()
      modifies this
      ensures Current() == Cleared(old(Current()))
    {
      structStack := [];
    }

    /** `streamWeaverStateMachine` on this state: the state is left as it was when End throws. */
    method Receive(t: Token) returns (r: Result<()>)
      modifies this
      ensures r.Ok? <==> Step(old(Current()), t).Ok?
      ensures r.Ok? ==> Current() == Step(old(Current()), t).value
      ensures r.Err? ==> r.error == IllegalArgument(END_OUTSIDE_STRUCT) && Current() == old(Current())
    {
      r := Ok(());
      match t
      case End =>
        var n := |structStack|;
        if n == 0 {
          return Err(IllegalArgument(END_OUTSIDE_STRUCT));
        }
        var top := structStack[n - 1];
        structStack := structStack[..n - 1];
        key := top.outerKey;
        Complete(StructBasket(top.struct));
      case Key(k) =>
        key := k;
      case BeginObject =>
        structStack := structStack + [OpenStruct(Opened(StructType.OBJECT), key)];
      case BeginArray =>
        structStack := structStack + [OpenStruct(Opened(StructType.ARRAY), key)];
      case _ =>
        Complete(Writers.ScalarBasket(t));
    }
  }
}
