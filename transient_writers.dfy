/**
 * The transient basket weaver: the same calls as the persistent weaver, made on one object
 * whose open containers are updated in place.
 */
module TransientWriters {
  import opened Outcomes
  import opened Values
  import opened TokenStreams
  import Writers
  import PropertySets

  /** A container that a transient weaver has open. */
  datatype Frame =
    | ArrayFrame(contents: seq<Basket>)
    | ObjectFrame(key: Option<string>, entries: seq<(string, Basket)>)

  /** The persistent weaver a transient value and its open frames stand for, innermost frame last. */
  function Chain(value: Option<Basket>, frames: seq<Frame>): Writers.Weaver
    decreases |frames|
  {
    if |frames| == 0 then Writers.ValueWeaver(value)
    else
      var parent := Chain(value, frames[..|frames| - 1]);
      match frames[|frames| - 1]
      case ArrayFrame(contents) => Writers.ArrayWeaver(parent, contents)
      case ObjectFrame(key, entries) => Writers.ObjectWeaver(parent, key, entries)
  }

  /** The basket an open frame weaves. */
  function FrameBasket(f: Frame): Basket {
    match f
    case ArrayFrame(contents) => ArrayBasket(contents)
    case ObjectFrame(_, entries) => ObjectBasket(PropertySets.OfEntries(entries))
  }

  /**
   * `Writers.weavingTransient()`: the top-level value and the containers opened inside it,
   * each updated in place. Every call behaves as the persistent weaver does.
   */
  class TransientWeaver {
    var value: Option<Basket>
    var frames: seq<Frame>

    function Current(): Writers.Weaver
      reads this
    {
      Chain(value, frames)
    }

    constructor ()
      ensures value == None && frames == []
      ensures Current() == Writers.Weaving()
    {
      value := None;
      frames := [];
    }

    /** `add`: the value is stored in the innermost open container, or as the top-level value. */
    method Add(b: Basket) returns (r: Result<()>)
      modifies this
      ensures r.Ok? <==> Writers.Accepting(old(Current()))
      ensures r.Ok? ==> Current() == Writers.Add(old(Current()), b).value
      ensures r.Err? ==> r.error == Writers.Add(old(Current()), b).error
    {
      var n := |frames|;
      if n == 0 {
        if value.None? {
          value := Some(b);
          r := Ok(());
        } else {
          r := Err(IllegalState(Writers.VALUE_ALREADY_SET));
        }
      } else {
        assert frames[..n - 1] + [frames[n - 1]] == frames;
        match frames[n - 1] {
          case ArrayFrame(contents) =>
            frames := frames[..n - 1] + [ArrayFrame(contents + [b])];
            assert frames[..n - 1] == old(frames)[..n - 1];
            r := Ok(());
          case ObjectFrame(key, entries) =>
            if key.None? {
              r := Err(IllegalState(Writers.ADD_WITHOUT_KEY));
            } else {
              frames := frames[..n - 1] + [ObjectFrame(None, entries + [(key.value, b)])];
              assert frames[..n - 1] == old(frames)[..n - 1];
              r := Ok(());
            }
        }
      }
    }

    method BeginObject()
      modifies this
      ensures value == old(value) && frames == old(frames) + [ObjectFrame(None, [])]
      ensures Current() == Writers.BeginObject(old(Current())).value
    {
      frames := frames + [ObjectFrame(None, [])];
      assert frames[..|frames| - 1] == old(frames);
    }

    method BeginArray() returns (r: Result<()>)
      modifies this
      ensures r.Ok? <==> Writers.BeginArray(old(Current())).Ok?
      ensures r.Ok? ==> value == old(value) && frames == old(frames) + [ArrayFrame([])]
      ensures r.Ok? ==> Current() == Writers.BeginArray(old(Current())).value
      ensures r.Err? ==> r.error == Writers.BeginArray(old(Current())).error && unchanged(this)
    {
      var n := |frames|;
      if n > 0 && frames[n - 1].ObjectFrame? && frames[n - 1].key.None? {
        r := Err(IllegalState(Writers.ARRAY_WITHOUT_KEY));
      } else {
        frames := frames + [ArrayFrame([])];
        assert frames[..|frames| - 1] == old(frames);
        r := Ok(());
      }
    }

    method SetKey(k: string) returns (r: Result<()>)
      modifies this
      ensures r.Ok? <==> Writers.SetKey(old(Current()), k).Ok?
      ensures r.Ok? ==> Current() == Writers.SetKey(old(Current()), k).value
      ensures r.Err? ==> r.error == Writers.SetKey(old(Current()), k).error && unchanged(this)
    {
      var n := |frames|;
      if n == 0 {
        r := Err(IllegalState(Writers.KEY_OUTSIDE_OBJECT));
      } else {
        assert frames[..n - 1] + [frames[n - 1]] == frames;
        match frames[n - 1] {
          case ArrayFrame(_) =>
            r := Err(IllegalState(Writers.KEY_IN_ARRAY));
          case ObjectFrame(key, entries) =>
            if key.None? {
              frames := frames[..n - 1] + [ObjectFrame(Some(k), entries)];
              assert frames[..n - 1] == old(frames)[..n - 1];
              r := Ok(());
            } else {
              r := Err(IllegalState(Writers.KEY_ALREADY_SET));
            }
        }
      }
    }

    /** `end`: the innermost open container is closed and its basket added to the one around it. */
    method End() returns (r: Result<()>)
      modifies this
      ensures r.Ok? <==> Writers.EndContainer(old(Current())).Ok?
      ensures r.Ok? ==> Current() == Writers.EndContainer(old(Current())).value
      ensures r.Err? ==> r.error == Writers.EndContainer(old(Current())).error
    {
      var n := |frames|;
      if n == 0 {
        r := Err(IllegalState(Writers.END_WITHOUT_BEGIN));
      } else {
        var woven := FrameBasket(frames[n - 1]);
        frames := frames[..n - 1];
        r := Add(woven);
      }
    }

    method Weave() returns (r: Result<Basket>)
      ensures r == Writers.Weave(Current())
    {
      var n := |frames|;
      if n == 0 {
        if value.Some? {
          r := Ok(value.value);
        } else {
          r := Err(IllegalState(Writers.INCOMPLETE_VALUE));
        }
      } else {
        r := Ok(FrameBasket(frames[n - 1]));
      }
    }

    /** `inputWritingStateMachine` on a transient weaver. */
    method Receive(t: Token) returns (r: Result<()>)
      modifies this
      ensures r.Ok? <==> Writers.Step(old(Current()), t).Ok?
      ensures r.Ok? ==> Current() == Writers.Step(old(Current()), t).value
    {
      match t {
        case BeginObject => BeginObject(); r := Ok(());
        case BeginArray => r := BeginArray();
        case End => r := End();
        case Key(k) => r := SetKey(k);
        case _ => r := Add(Writers.ScalarBasket(t));
      }
    }
  }
}
