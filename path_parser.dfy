/**
 * The path parser: reads a JSONPath-like string such as `$.a[0,2]..b[?]` into a chain of
 * strands composed from the root, taking the predicates for `[?]` segments from a list in order.
 * Every failure is the IllegalArgumentException (or the string, array or number exception) the
 * source throws, as an `Err`.
 */
module PathParser {
  import opened Outcomes
  import opened Values
  import opened Segments
  import opened Strands
  import StrandPaths

  type Predicates = seq<Basket -> bool>

  // ---- Characters and strings ----

  /**
   * Kotlin's `Char.isWhitespace`: the JVM's `Character.isWhitespace` or `Character.isSpaceChar`,
   * that is the controls tab to carriage return and the four separators U+001C to U+001F, and
   * every space, line and paragraph separator of Unicode (non-breaking spaces included).
   */
  predicate IsWhitespace(c: char) {
    '\t' <= c <= '\r' || '\U{1C}' <= c <= ' ' || c == '\U{A0}' || c == '\U{1680}'
    || '\U{2000}' <= c <= '\U{200A}' || c == '\U{2028}' || c == '\U{2029}' || c == '\U{202F}'
    || c == '\U{205F}' || c == '\U{3000}'
  }

  /** The test of `trim { it <= ' ' }`. */
  predicate IsControlOrSpace(c: char) {
    c <= ' '
  }

  /** The two sets of characters the parser trims: `isWhitespace`, and everything up to the space. */
  datatype Blank = Whitespace | ControlOrSpace

  predicate IsBlank(b: Blank, c: char) {
    match b
    case Whitespace => IsWhitespace(c)
    case ControlOrSpace => IsControlOrSpace(c)
  }

  /** The characters `[a-zA-Z0-9\-_]` a dotted key is made of. */
  predicate IsKeyChar(c: char) {
    'a' <= c <= 'z' || 'A' <= c <= 'Z' || '0' <= c <= '9' || c == '-' || c == '_'
  }

  /** `s` has the character `c` at position `i`: `startsWith` and `endsWith` of short literals, one character at a time. */
  predicate At(s: string, i: nat, c: char) {
    i < |s| && s[i] == c
  }

  /** `endsWith` of a one-character string. */
  predicate EndsWithChar(s: string, c: char) {
    |s| > 0 && s[|s| - 1] == c
  }

  /** `s` without the leading characters that satisfy `p`. */
  function TrimStart(s: string, b: Blank): (r: string)
    ensures |r| <= |s| && r == s[|s| - |r|..]
    ensures forall k | 0 <= k < |s| - |r| :: IsBlank(b, s[k])
    ensures |r| > 0 ==> !IsBlank(b, r[0])
    decreases |s|
  {
    if |s| > 0 && IsBlank(b, s[0]) then TrimStart(s[1..], b) else s
  }

  /** `s` without the trailing characters that satisfy `p`. */
  function TrimEnd(s: string, b: Blank): (r: string)
    ensures |r| <= |s| && r == s[..|r|]
    ensures forall k | |r| <= k < |s| :: IsBlank(b, s[k])
    ensures |r| > 0 ==> !IsBlank(b, r[|r| - 1])
    decreases |s|
  {
    if |s| > 0 && IsBlank(b, s[|s| - 1]) then TrimEnd(s[..|s| - 1], b) else s
  }

  /** `trim`: both ends stripped of the characters `p` accepts; a string with clean ends is kept. */
  function Trim(s: string, b: Blank): (r: string)
    ensures |r| > 0 ==> !IsBlank(b, r[0]) && !IsBlank(b, r[|r| - 1])
    ensures |s| > 0 && !IsBlank(b, s[0]) && !IsBlank(b, s[|s| - 1]) ==> r == s
  {
    TrimEnd(TrimStart(s, b), b)
  }

  /** Java's `substring(begin, end)`, which throws unless `0 <= begin <= end <= length`. */
  function Substring(s: string, begin: int, end: int): (r: Result<string>)
    ensures r.Ok? <==> 0 <= begin <= end <= |s|
    ensures r.Ok? ==> |r.value| == end - begin && forall k | 0 <= k < end - begin :: r.value[k] == s[begin + k]
    ensures r.Err? ==> r.error == StringIndexOutOfBounds(begin, end, |s|)
  {
    if 0 <= begin <= end <= |s| then Ok(s[begin..end]) else Err(StringIndexOutOfBounds(begin, end, |s|))
  }

  /**
   * Kotlin's `split(sep)`: the pieces between separators, empty pieces included, so a string
   * with `n` separators gives `n + 1` pieces.
   */
  function Split(s: string, sep: char): (r: seq<string>)
    ensures |r| > 0
    ensures forall i | 0 <= i < |r| :: sep !in r[i]
    decreases |s|
  {
    if |s| == 0 then [""]
    else
      var rest := Split(s[1..], sep);
      if s[0] == sep then [""] + rest else [[s[0]] + rest[0]] + rest[1..]
  }

  /** `dropLastWhile { it.isEmpty() }`. */
  function DropTrailingEmpty(parts: seq<string>): (r: seq<string>)
    ensures |r| <= |parts| && r == parts[..|r|]
    ensures |r| > 0 ==> r[|r| - 1] != ""
    ensures forall i | |r| <= i < |parts| :: parts[i] == ""
    decreases |parts|
  {
    if |parts| > 0 && parts[|parts| - 1] == "" then DropTrailingEmpty(parts[..|parts| - 1]) else parts
  }

  /** The length of the longest prefix of `s` made of key characters (the greedy `[...]+`). */
  function KeyRun(s: string): (n: nat)
    ensures n <= |s|
    ensures forall k | 0 <= k < n :: IsKeyChar(s[k])
    ensures n < |s| ==> !IsKeyChar(s[n])
    decreases |s|
  {
    if |s| == 0 || !IsKeyChar(s[0]) then 0 else 1 + KeyRun(s[1..])
  }

  /** The length of the longest prefix of `s` without a `]` (the greedy `[^]]+`). */
  function BracketRun(s: string): (n: nat)
    ensures n <= |s|
    ensures forall k | 0 <= k < n :: s[k] != ']'
    ensures n < |s| ==> s[n] == ']'
    decreases |s|
  {
    if |s| == 0 || s[0] == ']' then 0 else 1 + BracketRun(s[1..])
  }

  // ---- Integers ----

  function DigitValue(c: char): nat
    requires StrandPaths.IsDigit(c)
  {
    c as int - '0' as int
  }

  /** The value of a string of decimal digits. */
  function DigitsValue(s: string): nat
    requires forall k | 0 <= k < |s| :: StrandPaths.IsDigit(s[k])
    decreases |s|
  {
    if |s| == 0 then 0 else DigitsValue(s[..|s| - 1]) * 10 + DigitValue(s[|s| - 1])
  }

  predicate AllDigits(s: string) {
    forall k | 0 <= k < |s| :: StrandPaths.IsDigit(s[k])
  }

  /** The regular expression `-?[0-9]+`, matched against the whole string. */
  predicate IsIntegerLiteral(s: string) {
    var digits := if |s| > 0 && s[0] == '-' then s[1..] else s;
    |digits| > 0 && AllDigits(digits)
  }

  /**
   * `Integer.parseInt` (and `Integer.valueOf`): an optional sign, at least one digit, and a value
   * that fits in an `Int`; anything else is a NumberFormatException.
   */
  function ParseInt(s: string): (r: Result<Int32>)
    ensures r.Err? ==> r.error == NumberFormat(s)
    ensures IsIntegerLiteral(s) && s[0] != '-' && DigitsValue(s) <= 0x7fff_ffff ==> r == Ok(DigitsValue(s))
  {
    if |s| == 0 then Err(NumberFormat(s))
    else
      var negative := s[0] == '-';
      var digits := if s[0] == '-' || s[0] == '+' then s[1..] else s;
      if |digits| == 0 || !AllDigits(digits) then Err(NumberFormat(s))
      else
        var value: int := if negative then -(DigitsValue(digits) as int) else DigitsValue(digits);
        if -0x8000_0000 <= value <= 0x7fff_ffff then Ok(value) else Err(NumberFormat(s))
  }

  // ---- Index expressions: what stands between `[` and `]` ----

  /** A single integer index, or a key in single quotes, or a list, or a range. */
  function ParseIndexExpression(expression: string): (r: Result<Strand>)
    ensures r.Ok? ==> r.value.IndexStrand? || r.value.KeyStrand? || r.value.ArraySliceStrand?
  {
    if ',' in expression then ParseMultiIndexExpression(expression)
    else if ':' in expression then ParseRangeExpression(expression)
    else if At(expression, 0, '\'') && EndsWithChar(expression, '\'') then
      var key :- Substring(expression, 1, |expression| - 1);
      Ok(KeyStrand([key]))
    else if IsIntegerLiteral(expression) then
      var index :- ParseInt(expression);
      Ok(IndexStrand([index]))
    else Err(IllegalArgument("Unrecognised index expression: " + expression))
  }

  /** A comma-separated list: keys when the first entry is quoted, indices otherwise. */
  function ParseMultiIndexExpression(expression: string): (r: Result<Strand>)
    ensures r.Ok? ==> r.value.IndexStrand? || r.value.KeyStrand?
  {
    var entries := DropTrailingEmpty(Split(expression, ','));
    if |entries| == 0 then Err(IndexOutOfBounds(0))
    else
      var trimmed := TrimAll(entries);
      if At(Trim(entries[0], ControlOrSpace), 0, '\'') then
        var keys :- Unquote(trimmed);
        Ok(KeyStrand(keys))
      else
        var indices :- ParseIndices(trimmed);
        Ok(IndexStrand(indices))
  }

  /** Every entry trimmed of whitespace. */
  function TrimAll(entries: seq<string>): (r: seq<string>)
    ensures |r| == |entries| && forall i | 0 <= i < |entries| :: r[i] == Trim(entries[i], Whitespace)
  {
    if |entries| == 0 then [] else [Trim(entries[0], Whitespace)] + TrimAll(entries[1..])
  }

  /**
   * Each entry without its first and last character, then trimmed; an entry shorter than two
   * characters fails as `substring` does. The first failing entry decides the error.
   */
  function Unquote(entries: seq<string>): (r: Result<seq<string>>)
    ensures r.Ok? ==> |r.value| == |entries|
    decreases |entries|
  {
    if |entries| == 0 then Ok([])
    else
      var inner :- Substring(entries[0], 1, |entries[0]| - 1);
      var rest :- Unquote(entries[1..]);
      Ok([Trim(inner, Whitespace)] + rest)
  }

  /** Each entry must be an integer literal that fits in an `Int`; the first bad entry decides the error. */
  function ParseIndices(entries: seq<string>): (r: Result<seq<Int32>>)
    ensures r.Ok? ==> |r.value| == |entries|
    decreases |entries|
  {
    if |entries| == 0 then Ok([])
    else if !IsIntegerLiteral(entries[0]) then Err(IllegalArgument("Unrecognised index expression: " + entries[0]))
    else
      var index :- ParseInt(entries[0]);
      var rest :- ParseIndices(entries[1..]);
      Ok([index] + rest)
  }

  /** `a:b`, `:b` (from 0) or `a:` (to the open end); a lone `:` or more than two bounds fail. */
  function ParseRangeExpression(expression: string): (r: Result<Strand>)
    ensures r.Ok? ==> r.value.ArraySliceStrand?
  {
    if expression == ":" then Err(IllegalArgument("\":\" is not a legal range expression"))
    else if At(expression, 0, ':') then
      var end :- ParseInt(expression[1..]);
      Ok(ArraySliceStrand(0, end))
    else if EndsWithChar(expression, ':') then
      var start :- ParseInt(expression[..|expression| - 1]);
      Ok(ArraySliceStrand(start, UPPER_UNBOUNDED))
    else
      var bounds := DropTrailingEmpty(Split(expression, ':'));
      if |bounds| != 2 then Err(IllegalArgument("\"" + expression + "\" is not a legal range expression"))
      else
        var start :- ParseInt(bounds[0]);
        var end :- ParseInt(bounds[1]);
        Ok(ArraySliceStrand(start, end))
  }

  /** Every entry has the two characters that unquoting strips. */
  predicate AllQuotable(entries: seq<string>) {
    forall i | 0 <= i < |entries| :: |entries[i]| >= 2
  }

  lemma AllQuotableCons(entries: seq<string>)
    requires |entries| > 0
    ensures AllQuotable(entries) <==> |entries[0]| >= 2 && AllQuotable(entries[1..])
  {
    if |entries[0]| >= 2 && AllQuotable(entries[1..]) {
      forall i | 0 < i < |entries| ensures |entries[i]| >= 2 {
        assert entries[i] == entries[1..][i - 1];
      }
    }
  }

  /** Unquoting succeeds exactly when every entry has the two characters to strip. */
  lemma {:induction false} UnquoteSucceeds(entries: seq<string>)
    ensures Unquote(entries).Ok? <==> AllQuotable(entries)
    decreases |entries|
  {
    if |entries| > 0 {
      UnquoteSucceeds(entries[1..]);
      AllQuotableCons(entries);
    }
  }

  /** Each unquoted entry is the entry without its first and last character, trimmed of whitespace. */
  lemma {:induction false} UnquoteValues(entries: seq<string>)
    ensures var r := Unquote(entries);
      r.Ok? ==> forall i | 0 <= i < |entries| :: |entries[i]| >= 2 && r.value[i] == Trim(entries[i][1..|entries[i]| - 1], Whitespace)
    decreases |entries|
  {
    if |entries| > 0 && Unquote(entries).Ok? {
      var tail := Unquote(entries[1..]);
      UnquoteValues(entries[1..]);
      var r := Unquote(entries);
      assert r.value == [Trim(entries[0][1..|entries[0]| - 1], Whitespace)] + tail.value;
      forall i | 0 < i < |entries| ensures |entries[i]| >= 2 && r.value[i] == Trim(entries[i][1..|entries[i]| - 1], Whitespace) {
        assert entries[i] == entries[1..][i - 1];
      }
    }
  }

  /** Every entry of a parsed index list is an integer literal that parses to its index. */
  lemma {:induction false} ParseIndicesEntry(entries: seq<string>, i: nat)
    requires ParseIndices(entries).Ok? && i < |entries|
    ensures IsIntegerLiteral(entries[i]) && ParseInt(entries[i]) == Ok(ParseIndices(entries).value[i])
    decreases i
  {
    if i > 0 {
      ParseIndicesEntry(entries[1..], i - 1);
      assert entries[1..][i - 1] == entries[i];
    }
  }

  /** Any entry that is not an integer literal makes the whole list fail. */
  lemma {:induction false} ParseIndicesRejects(entries: seq<string>, i: nat)
    requires i < |entries| && !IsIntegerLiteral(entries[i])
    ensures ParseIndices(entries).Err?
    decreases i
  {
    if i > 0 && IsIntegerLiteral(entries[0]) {
      ParseIndicesRejects(entries[1..], i - 1);
    }
  }

  // ---- How each form of index expression is read ----

  /** An integer literal without comma or colon is a one-index strand, or the number error. */
  lemma SingleIndexExpression(e: string)
    requires ',' !in e && ':' !in e && IsIntegerLiteral(e)
    ensures var n := ParseInt(e); ParseIndexExpression(e) == if n.Ok? then Ok(IndexStrand([n.value])) else Err(n.error)
  {
    assert e[0] == '-' || StrandPaths.IsDigit(e[0]);
  }

  /** A list whose first entry is unquoted is a list of indices, read from the trimmed entries. */
  lemma IndexListExpression(e: string)
    requires ',' in e
    requires var entries := DropTrailingEmpty(Split(e, ','));
      |entries| > 0 && !At(Trim(entries[0], ControlOrSpace), 0, '\'')
    ensures var r := ParseIndices(TrimAll(DropTrailingEmpty(Split(e, ','))));
      ParseIndexExpression(e) == if r.Ok? then Ok(IndexStrand(r.value)) else Err(r.error)
  {
  }

  /** A list whose first entry is quoted is a list of keys, read from the trimmed entries. */
  lemma KeyListExpression(e: string)
    requires ',' in e
    requires var entries := DropTrailingEmpty(Split(e, ','));
      |entries| > 0 && At(Trim(entries[0], ControlOrSpace), 0, '\'')
    ensures var r := Unquote(TrimAll(DropTrailingEmpty(Split(e, ','))));
      ParseIndexExpression(e) == if r.Ok? then Ok(KeyStrand(r.value)) else Err(r.error)
  {
  }

  /** An expression that is no list, no range, no quoted key and no integer is refused. */
  lemma UnrecognisedIndexExpression(e: string)
    requires ',' !in e && ':' !in e && !(At(e, 0, '\'') && EndsWithChar(e, '\'')) && !IsIntegerLiteral(e)
    ensures ParseIndexExpression(e) == Err(IllegalArgument("Unrecognised index expression: " + e))
  {
  }

  /** A quoted expression without comma or colon is one key: the text between the quotes. */
  lemma QuotedKeyExpression(e: string)
    requires ',' !in e && ':' !in e && |e| >= 2 && e[0] == '\'' && e[|e| - 1] == '\''
    ensures ParseIndexExpression(e) == Ok(KeyStrand([e[1..|e| - 1]]))
  {
  }

  /** A list of nothing but commas has no entries, and reading its first entry fails. */
  lemma EmptyIndexList(e: string)
    requires ',' in e && DropTrailingEmpty(Split(e, ',')) == []
    ensures ParseIndexExpression(e) == Err(IndexOutOfBounds(0))
  {
  }

  /** A lone colon is not a range. */
  lemma LoneColonRange()
    ensures ParseRangeExpression(":") == Err(IllegalArgument("\":\" is not a legal range expression"))
  {
  }

  /** `:b` is the range from 0 to `b`. */
  lemma OpenStartRange(e: string)
    requires e != ":" && At(e, 0, ':')
    ensures var end := ParseInt(e[1..]);
      ParseRangeExpression(e) == if end.Ok? then Ok(ArraySliceStrand(0, end.value)) else Err(end.error)
  {
  }

  /** `a:` is the range from `a` to the open end. */
  lemma OpenEndRange(e: string)
    requires !At(e, 0, ':') && EndsWithChar(e, ':')
    ensures var start := ParseInt(e[..|e| - 1]);
      ParseRangeExpression(e) == if start.Ok? then Ok(ArraySliceStrand(start.value, UPPER_UNBOUNDED)) else Err(start.error)
  {
    assert e != ":";
  }

  /** Anything but two bounds around the colon is refused. */
  lemma MalformedRange(e: string)
    requires !At(e, 0, ':') && !EndsWithChar(e, ':') && |DropTrailingEmpty(Split(e, ':'))| != 2
    ensures ParseRangeExpression(e) == Err(IllegalArgument("\"" + e + "\" is not a legal range expression"))
  {
    assert e != ":";
  }

  /** An expression with a colon and no comma is a range. */
  lemma RangeExpression(e: string)
    requires ',' !in e && ':' in e
    ensures ParseIndexExpression(e) == ParseRangeExpression(e)
  {
  }

  /** Two bounds around one colon: both must be integers. */
  lemma TwoBoundRange(e: string)
    requires !At(e, 0, ':') && !EndsWithChar(e, ':')
    requires var bounds := DropTrailingEmpty(Split(e, ':')); |bounds| == 2
    ensures var bounds := DropTrailingEmpty(Split(e, ':'));
      var a := ParseInt(bounds[0]);
      var b := ParseInt(bounds[1]);
      ParseRangeExpression(e) == if a.Err? then Err(a.error) else if b.Err? then Err(b.error) else Ok(ArraySliceStrand(a.value, b.value))
  {
    assert e != ":";
  }

  // ---- Paths ----

  /** The predicates of the `[?]` strands in a strand, left to right. */
  function StrandTests(s: Strand): Predicates {
    match s
    case ComposedStrand(first, second) => StrandTests(first) + StrandTests(second)
    case ConditionalStrand(test) => [test]
    case _ => []
  }

  /** A chain of simple strands composed onto the root, left to right: the shape the parser builds. */
  predicate IsChain(s: Strand) {
    s.RootStrand? || (s.ComposedStrand? && IsChain(s.first) && !s.second.RootStrand? && !s.second.ComposedStrand?)
  }

  /**
   * What the front of the remaining path is recognised as, tried in the source's order: `.*`,
   * `[*]`, `[?]`, `.key`, `..key`, then `[` expression `]`.
   */
  datatype Token =
    | WildcardToken(length: nat)
    | ConditionalToken
    | KeyToken(key: string)
    | DeepScanToken(key: string)
    | IndexToken(expression: string)

  /** How much of the remaining path a token covers. */
  function TokenLength(t: Token): nat {
    match t
    case WildcardToken(length) => length
    case ConditionalToken => 3
    case KeyToken(key) => |key| + 1
    case DeepScanToken(key) => |key| + 2
    case IndexToken(expression) => |expression| + 2
  }

  /**
   * The token at the front of a non-empty remaining path. The key patterns are greedy runs of
   * key characters, the index pattern a non-empty run without `]` closed by `]`; a front that
   * matches none of them is an unrecognised segment.
   */
  function NextToken(remaining: string): (r: Result<Token>)
    requires |remaining| > 0
    ensures r.Ok? ==> 0 < TokenLength(r.value) <= |remaining|
    ensures r.Err? <==> r == Err(IllegalArgument("Unrecognised path segment: " + remaining))
    ensures r.Ok? && r.value.WildcardToken? ==> r.value.length == 2 || r.value.length == 3
  {
    if At(remaining, 0, '.') && At(remaining, 1, '*') then Ok(WildcardToken(2))
    else if At(remaining, 0, '[') && At(remaining, 1, '*') && At(remaining, 2, ']') then Ok(WildcardToken(3))
    else if At(remaining, 0, '[') && At(remaining, 1, '?') && At(remaining, 2, ']') then Ok(ConditionalToken)
    else if remaining[0] == '.' && KeyRun(remaining[1..]) > 0 then
      Ok(KeyToken(remaining[1..1 + KeyRun(remaining[1..])]))
    else if At(remaining, 0, '.') && At(remaining, 1, '.') && KeyRun(remaining[2..]) > 0 then
      Ok(DeepScanToken(remaining[2..2 + KeyRun(remaining[2..])]))
    else if remaining[0] != '[' || BracketRun(remaining[1..]) == 0 || 1 + BracketRun(remaining[1..]) == |remaining| then
      Err(IllegalArgument("Unrecognised path segment: " + remaining))
    else Ok(IndexToken(remaining[1..1 + BracketRun(remaining[1..])]))
  }

  /** The strand a token stands for, and how many predicates it takes. */
  datatype Segment = Segment(strand: Strand, used: nat)

  /**
   * The strand of a token. A `[?]` takes the first predicate and fails when none is left; an
   * index expression is trimmed and read by `ParseIndexExpression`.
   */
  function TokenSegment(t: Token, predicates: Predicates): (r: Result<Segment>)
    ensures r.Ok? ==> r.value.used <= |predicates| && StrandTests(r.value.strand) == predicates[..r.value.used]
    ensures r.Ok? ==> !r.value.strand.RootStrand? && !r.value.strand.ComposedStrand?
    ensures t.ConditionalToken? ==>
      if |predicates| == 0 then r == Err(IllegalArgument("Predicate expression without matching predicate"))
      else r == Ok(Segment(ConditionalStrand(predicates[0]), 1))
  {
    match t
    case WildcardToken(_) => Ok(Segment(WildcardStrand, 0))
    case ConditionalToken =>
      if |predicates| == 0 then Err(IllegalArgument("Predicate expression without matching predicate"))
      else Ok(Segment(ConditionalStrand(predicates[0]), 1))
    case KeyToken(key) => Ok(Segment(KeyStrand([key]), 0))
    case DeepScanToken(key) => Ok(Segment(DeepScanStrand(key), 0))
    case IndexToken(expression) =>
      var strand :- ParseIndexExpression(Trim(expression, ControlOrSpace));
      Ok(Segment(strand, 0))
  }

  /** `.*` and `[*]` are the wildcard, whatever follows. */
  lemma WildcardTokenAt(remaining: string)
    requires (At(remaining, 0, '.') && At(remaining, 1, '*')) || (At(remaining, 0, '[') && At(remaining, 1, '*') && At(remaining, 2, ']'))
    ensures NextToken(remaining) == Ok(WildcardToken(if remaining[0] == '.' then 2 else 3))
  {
  }

  /** `[?]` is a conditional, whatever follows. */
  lemma ConditionalTokenAt(remaining: string)
    requires At(remaining, 0, '[') && At(remaining, 1, '?') && At(remaining, 2, ']')
    ensures NextToken(remaining) == Ok(ConditionalToken)
  {
  }

  /** A `.` and a run of key characters is one key, whatever follows the run. */
  lemma KeyTokenAt(remaining: string)
    requires |remaining| >= 2 && remaining[0] == '.' && remaining[1] != '*' && KeyRun(remaining[1..]) > 0
    ensures NextToken(remaining) == Ok(KeyToken(remaining[1..1 + KeyRun(remaining[1..])]))
  {
  }

  /** `..` and a run of key characters is one deep scan. */
  lemma DeepScanTokenAt(remaining: string)
    requires |remaining| >= 3 && remaining[0] == '.' && remaining[1] == '.' && KeyRun(remaining[2..]) > 0
    ensures NextToken(remaining) == Ok(DeepScanToken(remaining[2..2 + KeyRun(remaining[2..])]))
  {
    assert KeyRun(remaining[1..]) == 0;
  }

  /** A `[`, a run without `]` that is not `*` or `?`, and a `]` is one index expression. */
  lemma IndexTokenAt(remaining: string, n: nat)
    requires |remaining| >= 2 && remaining[0] == '[' && remaining[1] != '*' && remaining[1] != '?'
    requires n == BracketRun(remaining[1..]) && 0 < n && 1 + n < |remaining|
    ensures NextToken(remaining) == Ok(IndexToken(remaining[1..1 + n]))
  {
  }

  /**
   * The rest of a path after the strands parsed so far. A successful parse keeps the chain shape
   * and uses up the predicates exactly, in order; predicates left at the end are an error.
   */
  function ParseRemaining(parsed: Strand, remaining: string, predicates: Predicates): (r: Result<Strand>)
    ensures r.Ok? ==> StrandTests(r.value) == StrandTests(parsed) + predicates
    ensures IsChain(parsed) && r.Ok? ==> IsChain(r.value)
    ensures |remaining| == 0 && |predicates| > 0 ==> r == Err(IllegalArgument("Unmatched predicate"))
    decreases |remaining|, 1
  {
    if |remaining| == 0 then
      if |predicates| > 0 then Err(IllegalArgument("Unmatched predicate")) else (assert StrandTests(parsed) + [] == StrandTests(parsed); Ok(parsed))
    else
      var token :- NextToken(remaining);
      ParseSegment(parsed, token, remaining[TokenLength(token)..], predicates)
  }

  /**
   * One branch of the source's `when`: the strand of the token just read is composed onto the
   * strands parsed so far, and parsing goes on with the text after the token.
   */
  function ParseSegment(parsed: Strand, token: Token, rest: string, predicates: Predicates): (r: Result<Strand>)
    ensures r.Ok? ==> StrandTests(r.value) == StrandTests(parsed) + predicates
    ensures IsChain(parsed) && r.Ok? ==> IsChain(r.value)
    decreases |rest|, 2
  {
    var segment :- TokenSegment(token, predicates);
    var composed := ComposedStrand(parsed, segment.strand);
    assert StrandTests(composed) + predicates[segment.used..] == StrandTests(parsed) + predicates by {
      assert predicates == predicates[..segment.used] + predicates[segment.used..];
    }
    ParseRemaining(composed, rest, predicates[segment.used..])
  }

  /** After a token is read, parsing goes on with its strand composed on and its text and predicates used up. */
  lemma ParseRemainingStep(parsed: Strand, remaining: string, predicates: Predicates, token: Token, segment: Segment)
    requires |remaining| > 0 && NextToken(remaining) == Ok(token) && TokenSegment(token, predicates) == Ok(segment)
    ensures ParseRemaining(parsed, remaining, predicates)
         == ParseRemaining(ComposedStrand(parsed, segment.strand), remaining[TokenLength(token)..], predicates[segment.used..])
  {
  }

  /** A token whose strand cannot be built stops the parse with that error. */
  lemma ParseRemainingFails(parsed: Strand, remaining: string, predicates: Predicates, token: Token)
    requires |remaining| > 0 && NextToken(remaining) == Ok(token) && TokenSegment(token, predicates).Err?
    ensures ParseRemaining(parsed, remaining, predicates) == Err(TokenSegment(token, predicates).error)
  {
  }

  /** `parse`: the trimmed path must start with `$` or `@`; the rest is parsed onto the root strand. */
  function Parse(pathString: string, predicates: Predicates): (r: Result<Strand>)
    ensures r.Ok? ==> IsChain(r.value) && StrandTests(r.value) == predicates
    ensures r.Ok? ==> var trimmed := Trim(pathString, Whitespace); |trimmed| > 0 && trimmed[0] in "$@"
    ensures var trimmed := Trim(pathString, Whitespace);
      |trimmed| == 0 || trimmed[0] !in "$@" ==> r == Err(IllegalArgument("Path string must begin with $ or @"))
  {
    var trimmed := Trim(pathString, Whitespace);
    if |trimmed| == 0 || (trimmed[0] != '$' && trimmed[0] != '@') then
      Err(IllegalArgument("Path string must begin with $ or @"))
    else ParseRemaining(RootStrand, trimmed[1..], predicates)
  }

  /** `text` is `$` followed by `path`, with no whitespace at its end for the parser to trim. */
  predicate RootText(text: string, path: string) {
    |text| > 0 && text[0] == '$' && !IsWhitespace(text[|text| - 1]) && text[1..] == path
  }

  /** A path that starts with `$` and ends in no whitespace is parsed from the character after the `$`. */

  lemma ParseFromRoot(text: string, path: string, predicates: Predicates)
    requires RootText(text, path)
    ensures Parse(text, predicates) == ParseRemaining(RootStrand, path, predicates)
  {
    assert Trim(text, Whitespace) == text;
  }

  /** Unicode spaces around a text with clean ends, non-breaking ones included, are trimmed away like ASCII ones. */
  lemma TrimUnicodeSpaces(text: string)
    requires |text| > 0 && !IsWhitespace(text[0]) && !IsWhitespace(text[|text| - 1])
    ensures Trim(['\U{A0}', '\U{3000}'] + text + ['\U{2028}'], Whitespace) == text
  {
    var padded := ['\U{A0}', '\U{3000}'] + text + ['\U{2028}'];
    var tail := text + ['\U{2028}'];
    assert padded[1..][1..] == tail;
    assert TrimStart(padded, Whitespace) == TrimStart(tail, Whitespace) == tail;
    assert tail[..|tail| - 1] == text;
    assert TrimEnd(tail, Whitespace) == TrimEnd(text, Whitespace) == text;
  }

  /** A root path padded with Unicode spaces parses as the path itself. */
  lemma PaddedRoot(text: string, path: string, predicates: Predicates)
    requires RootText(text, path)
    ensures Parse(['\U{A0}', '\U{3000}'] + text + ['\U{2028}'], predicates) == ParseRemaining(RootStrand, path, predicates)
  {
    TrimUnicodeSpaces(text);
  }

  /** Every segment starts with `.` or `[`: anything else stops the parse with the remaining text in the message. */
  lemma UnrecognisedSegment(parsed: Strand, remaining: string, predicates: Predicates)
    requires |remaining| > 0 && remaining[0] != '.' && remaining[0] != '['
    ensures ParseRemaining(parsed, remaining, predicates) == Err(IllegalArgument("Unrecognised path segment: " + remaining))
  {
    assert NextToken(remaining).Err?;
  }
}
