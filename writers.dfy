/**
 * Basket-weaving writers: they receive the calls of a token stream (begin, key, add, end)
 * and build the basket it describes. A persistent weaver answers every call with a new
 * weaver; the transient one updates its open containers in place.
 */
module Writers {
  import opened Outcomes
  import opened Values
  import opened TokenStreams
  import PropertySets

  /**
   * A persistent weaver. The top-level value weaver holds the value once it is added; an
   * array or object weaver holds what it has collected and the weaver to hand the finished
   * container to; an object weaver also holds the key given for the next value.
   */
  datatype Weaver =
    | ValueWeaver(value: Option<Basket>)
    | ArrayWeaver(parent: Weaver, contents: seq<Basket>)
    | ObjectWeaver(parent: Weaver, key: Option<string>, entries: seq<(string, Basket)>)

  /** The messages of the IllegalStateExceptions the weavers throw. */
  const VALUE_ALREADY_SET: string := "add() called when writing value, but value already set"
  const ADD_WITHOUT_KEY: string := "add() called while writing object, but key not given"
  const INCOMPLETE_VALUE: string := "weave called on incomplete value"
  const ARRAY_WITHOUT_KEY: string := "beginArray() called while writing object, but key not given"
  const END_WITHOUT_BEGIN: string := "end called without corresponding beginObject or beginArray"
  const KEY_OUTSIDE_OBJECT: string := "key called, but not writing object"
  const KEY_IN_ARRAY: string := "key() called while writing array"
  const KEY_ALREADY_SET: string := "key() called, but key already set"

  /** `Writers.weaving()`: a top-level weaver with nothing written yet. */
  function Weaving(): Weaver {
    ValueWeaver(None)
  }

  /** The weaver will take a value now: an unset top level, an array, or an object that has its key. */
  predicate Accepting(w: Weaver) {
    || (w.ValueWeaver? && w.value.None?)
    || w.ArrayWeaver?
    || (w.ObjectWeaver? && w.key.Some?)
  }

  function Add(w: Weaver, b: Basket): (r: Result<Weaver>)
    ensures r.Ok? <==> Accepting(w)
  {
    match w
    case ValueWeaver(value) =>
      if value.None? then Ok(ValueWeaver(Some(b)))
      else Err(IllegalState(VALUE_ALREADY_SET))
    case ArrayWeaver(parent, contents) => Ok(ArrayWeaver(parent, contents + [b]))
    case ObjectWeaver(parent, key, entries) =>
      if key.Some? then Ok(ObjectWeaver(parent, None, entries + [(key.value, b)]))
      else Err(IllegalState(ADD_WITHOUT_KEY))
  }

  /** The basket written so far: a container weaves what it holds, the top level only once it is set. */
  function Weave(w: Weaver): (r: Result<Basket>)
    ensures r.Err? <==> w.ValueWeaver? && w.value.None?
  {
    match w
    case ValueWeaver(value) =>
      if value.Some? then Ok(value.value)
      else Err(IllegalState(INCOMPLETE_VALUE))
    case ArrayWeaver(_, contents) => Ok(ArrayBasket(contents))
    case ObjectWeaver(_, _, entries) => Ok(ObjectBasket(PropertySets.OfEntries(entries)))
  }

  function BeginObject(w: Weaver): (r: Result<Weaver>)
    ensures r == Ok(ObjectWeaver(w, None, []))
  {
    Ok(ObjectWeaver(w, None, []))
  }

  function BeginArray(w: Weaver): (r: Result<Weaver>)
    ensures r.Ok? <==> !(w.ObjectWeaver? && w.key.None?)
    ensures r.Ok? ==> r.value == ArrayWeaver(w, [])
  {
    if w.ObjectWeaver? && w.key.None? then
      Err(IllegalState(ARRAY_WITHOUT_KEY))
    else Ok(ArrayWeaver(w, []))
  }

  /** `end`: a container hands the basket it weaves to its parent; the top level has nothing to end. */
  function EndContainer(w: Weaver): (r: Result<Weaver>)
    ensures w.ValueWeaver? ==> r.Err?
    ensures !w.ValueWeaver? ==> r == Add(w.parent, Weave(w).value)
  {
    match w
    case ValueWeaver(_) => Err(IllegalState(END_WITHOUT_BEGIN))
    case ArrayWeaver(parent, contents) => Add(parent, ArrayBasket(contents))
    case ObjectWeaver(parent, _, entries) => Add(parent, ObjectBasket(PropertySets.OfEntries(entries)))
  }

  function SetKey(w: Weaver, k: string): (r: Result<Weaver>)
    ensures r.Ok? <==> w.ObjectWeaver? && w.key.None?
    ensures r.Ok? ==> r.value == ObjectWeaver(w.parent, Some(k), w.entries)
  {
    match w
    case ValueWeaver(_) => Err(IllegalState(KEY_OUTSIDE_OBJECT))
    case ArrayWeaver(_, _) => Err(IllegalState(KEY_IN_ARRAY))
    case ObjectWeaver(parent, key, entries) =>
      if key.None? then Ok(ObjectWeaver(parent, Some(k), entries))
      else Err(IllegalState(KEY_ALREADY_SET))
  }

  /** A scalar token as the basket the scalar-promoting `add` overloads build. */
  function ScalarBasket(t: Token): (b: Basket)
    requires !IsBegin(t) && !t.End? && !t.Key?
    ensures !IsStruct(b) && ScalarToken(b) == t
  {
    match t
    case NullValue => NullBasket
    case TrueValue => TrueBasket
    case FalseValue => FalseBasket
    case StringValue(s) => StringBasket(s)
    case NumberValue(n) => NumberBasket(n)
  }

  /** `inputWritingStateMachine` applied to a weaver: each token becomes the writer call it names. */
  function Step(w: Weaver, t: Token): Result<Weaver> {
    match t
    case BeginObject => BeginObject(w)
    case BeginArray => BeginArray(w)
    case End => EndContainer(w)
    case Key(k) => SetKey(w, k)
    case _ => Add(w, ScalarBasket(t))
  }

  /** The same step on the outcome so far: once a call has thrown, the rest of the stream is not written. */
  function Next(r: Result<Weaver>, t: Token): Result<Weaver> {
    if r.Err? then r else Step(r.value, t)
  }

  /** The top-level weaver refuses a second value, an `end` and a `key`. */
  lemma TopLevelRefuses(b: Basket, c: Basket, k: string)
    ensures Add(Weaving(), b) == Ok(ValueWeaver(Some(b)))
    ensures Add(ValueWeaver(Some(b)), c).Err?
    ensures forall v :: EndContainer(ValueWeaver(v)).Err?
    ensures forall v :: SetKey(ValueWeaver(v), k).Err?
    ensures Weave(Weaving()) == Err(IllegalState(INCOMPLETE_VALUE))
  {
  }

  /**
   * An object weaver refuses a value before its key, a second key and an array before
   * its key; an array weaver refuses any key.
   */
  lemma ContainerRefuses(parent: Weaver, entries: seq<(string, Basket)>, contents: seq<Basket>,
                         k: string, k2: string, b: Basket)
    ensures Add(ObjectWeaver(parent, None, entries), b).Err?
    ensures SetKey(ObjectWeaver(parent, Some(k), entries), k2).Err?
    ensures BeginArray(ObjectWeaver(parent, None, entries)).Err?
    ensures SetKey(ArrayWeaver(parent, contents), k).Err?
  {
  }

  /** Ending a container adds the basket it weaves to its parent: an array its items, an object its entries. */
  lemma EndAddsToParent(parent: Weaver, contents: seq<Basket>, key: Option<string>, entries: seq<(string, Basket)>)
    ensures EndContainer(ArrayWeaver(parent, contents)) == Add(parent, ArrayBasket(contents))
    ensures EndContainer(ObjectWeaver(parent, key, entries))
         == Add(parent, ObjectBasket(PropertySets.OfEntries(entries)))
  {
  }

  /**
   * Writing a basket into a weaver that accepts a value adds exactly that basket to it.
   */
  lemma {:induction false} WeaveTokens(w: Weaver, b: Basket)
    requires Accepting(w) && WellFormed(b)
    ensures WriteTo(b, Ok(w), Next) == Add(w, b)
    decreases b, 2
  {
    if b.ArrayBasket? {
      WeaveArray(w, b);
    } else if b.ObjectBasket? {
      WeaveObject(w, b);
    }
  }

  lemma {:induction false} WeaveArray(w: Weaver, b: Basket)
    requires Accepting(w) && b.ArrayBasket? && WellFormed(b)
    ensures WriteTo(b, Ok(w), Next) == Add(w, b)
    decreases b, 1
  {
    var items := b.contents;
    assert Next(Ok(w), Token.BeginArray) == Ok(ArrayWeaver(w, []));
    WeaveItems(w, b, |items|);
    assert items[..|items|] == items;
  }

  lemma {:induction false} WeaveObject(w: Weaver, b: Basket)
    requires Accepting(w) && b.ObjectBasket? && WellFormed(b)
    ensures WriteTo(b, Ok(w), Next) == Add(w, b)
    decreases b, 1
  {
    var es := PropertySets.Entries(b.properties);
    assert Next(Ok(w), Token.BeginObject) == Ok(ObjectWeaver(w, None, []));
    WeaveEntries(w, b, |es|);
    assert es[..|es|] == es;
    PropertySets.EntriesRoundTrip(b.properties);
  }

  lemma {:induction false} WeaveItems(w: Weaver, parent: Basket, n: nat)
    requires Accepting(w) && parent.ArrayBasket? && n <= |parent.contents| && WellFormed(parent)
    ensures WriteItems(parent, n, Ok(ArrayWeaver(w, [])), Next) == Ok(ArrayWeaver(w, parent.contents[..n]))
    decreases parent, 0, n
  {
    if n > 0 {
      var items := parent.contents;
      WeaveItems(w, parent, n - 1);
      WeaveTokens(ArrayWeaver(w, items[..n - 1]), items[n - 1]);
      SnocSlice(items, n);
    }
  }

  lemma {:induction false} WeaveEntries(w: Weaver, parent: Basket, n: nat)
    requires Accepting(w) && parent.ObjectBasket? && WellFormed(parent)
    requires n <= |PropertySets.Entries(parent.properties)|
    ensures WriteEntries(parent, n, Ok(ObjectWeaver(w, None, [])), Next)
         == Ok(ObjectWeaver(w, None, PropertySets.Entries(parent.properties)[..n]))
    decreases parent, 0, n
  {
    if n > 0 {
      var es := PropertySets.Entries(parent.properties);
      WeaveEntries(w, parent, n - 1);
      PropertySets.EntryValue(parent.properties, n - 1);
      WeaveTokens(ObjectWeaver(w, Some(es[n - 1].0), es[..n - 1]), es[n - 1].1);
      EntryStep(w, es[..n - 1], es[n - 1].0, es[n - 1].1);
      SnocSlice(es, n);
    }
  }

  /** A key followed by its value's tokens appends one entry to an object weaver. */
  lemma EntryStep(w: Weaver, done: seq<(string, Basket)>, k: string, v: Basket)
    requires WriteTo(v, Ok(ObjectWeaver(w, Some(k), done)), Next) == Add(ObjectWeaver(w, Some(k), done), v)
    ensures WriteTo(v, Next(Ok(ObjectWeaver(w, None, done)), Key(k)), Next)
         == Ok(ObjectWeaver(w, None, done + [(k, v)]))
  {
  }

  lemma SnocSlice<T>(s: seq<T>, n: nat)
    requires 0 < n <= |s|
    ensures s[..n - 1] + [s[n - 1]] == s[..n]
  {
  }

  /**
   * Round trip: writing a well-formed basket into a fresh weaver, which is feeding the
   * weaver the basket's tokens, and weaving the result gives the basket back.
   */
  lemma WovenRoundTrip(b: Basket)
    requires WellFormed(b)
    ensures Feed(Next, Ok(Weaving()), Tokens(b)) == Ok(ValueWeaver(Some(b)))
    ensures Weave(ValueWeaver(Some(b))) == Ok(b)
  {
    WriteToFeeds(b, Ok(Weaving()), Next);
    WeaveTokens(Weaving(), b);
  }
}
