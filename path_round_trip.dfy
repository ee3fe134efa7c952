/**
 * Printing and parsing agree: the path string of a chain of strands composed onto the root
 * parses back to the same chain, given the chain's predicates in order. The chain may hold any
 * strand the parser has a syntax for: index lists, keys made of key characters, slices (in the
 * bracketed form), `[?]`, deep scans to such a key, and the wildcard.
 */
module PathRoundTrip {
  import opened Outcomes
  import opened Values
  import opened Segments
  import opened Strands
  import opened StrandPaths
  import opened PathParser

  predicate PrintableKey(key: string) {
    |key| > 0 && forall k | 0 <= k < |key| :: IsKeyChar(key[k])
  }

  /** The strands whose path string is a segment the parser reads back. */
  predicate Printable(x: Strand) {
    match x
    case IndexStrand(indices) => |indices| > 0
    case KeyStrand(keys) => |keys| > 0 && forall i | 0 <= i < |keys| :: PrintableKey(keys[i])
    case ArraySliceStrand(_, _) => true
    case ConditionalStrand(_) => true
    case DeepScanStrand(key) => PrintableKey(key)
    case WildcardStrand => true
    case _ => false
  }

  /** `parsed.then(chain[0]).then(chain[1])...`, the way the parser composes. */
  function BuildOn(parsed: Strand, chain: seq<Strand>): Strand
    decreases |chain|
  {
    if |chain| == 0 then parsed else BuildOn(ComposedStrand(parsed, chain[0]), chain[1..])
  }

  function ChainPath(chain: seq<Strand>): string
    decreases |chain|
  {
    if |chain| == 0 then "" else PathString(chain[0]) + ChainPath(chain[1..])
  }

  function ChainTests(chain: seq<Strand>): Predicates
    decreases |chain|
  {
    if |chain| == 0 then [] else StrandTests(chain[0]) + ChainTests(chain[1..])
  }

  /** Where one printed segment ends: the end of the path, or the `.` or `[` of the next segment. */
  predicate SegmentBoundary(rest: string) {
    |rest| == 0 || rest[0] == '.' || rest[0] == '['
  }

  predicate NoWhitespace(s: string) {
    forall k | 0 <= k < |s| :: !IsWhitespace(s[k])
  }

  // ---- Numbers ----

  lemma {:induction false} DigitsOfNat(n: nat)
    ensures DigitsValue(NatToString(n)) == n
    decreases n
  {
    if n >= 10 {
      DigitsOfNat(n / 10);
      var s := NatToString(n);
      assert s[..|s| - 1] == NatToString(n / 10);
    }
  }

  /** Kotlin's `toString` of an `Int` reads back through `Integer.parseInt` and the integer pattern. */
  lemma ParseIntOfString(i: Int32)
    ensures IsIntegerLiteral(IntToString(i))
    ensures ParseInt(IntToString(i)) == Ok(i)
  {
    var s := IntToString(i);
    if i < 0 {
      var magnitude: nat := -(i as int);
      DigitsOfNat(magnitude);
      assert s[1..] == NatToString(magnitude);
    } else {
      DigitsOfNat(i);
    }
  }

  /** The characters of an integer's string are digits and a leading minus sign. */
  lemma IntStringChars(i: int)
    ensures ',' !in IntToString(i) && ':' !in IntToString(i) && ']' !in IntToString(i)
    ensures NoWhitespace(IntToString(i))
    ensures IntToString(i)[0] != '*' && IntToString(i)[0] != '?' && IntToString(i)[0] != ':' && IntToString(i)[0] != '\''
  {
    var s := IntToString(i);
    forall k | 0 <= k < |s|
      ensures s[k] != ',' && s[k] != ':' && s[k] != ']' && !IsWhitespace(s[k])
    {
      assert k == 0 || StrandPaths.IsDigit(s[k]);
    }
  }

  // ---- Splitting and joining ----

  lemma {:induction false} SplitPrefix(a: string, b: string, sep: char)
    requires sep !in a
    ensures Split(a + b, sep) == [a + Split(b, sep)[0]] + Split(b, sep)[1..]
    decreases |a|
  {
    if |a| == 0 {
      var pieces := Split(b, sep);
      assert a + b == b;
      assert a + pieces[0] == pieces[0];
      assert [pieces[0]] + pieces[1..] == pieces;
    } else {
      assert (a + b)[1..] == a[1..] + b;
      SplitPrefix(a[1..], b, sep);
      assert [a[0]] + (a[1..] + Split(b, sep)[0]) == a + Split(b, sep)[0];
    }
  }

  /** Splitting a joined list gives the list back when no part holds the separator. */
  lemma {:induction false} SplitJoin(parts: seq<string>, sep: char)
    requires |parts| > 0
    requires forall i | 0 <= i < |parts| :: sep !in parts[i]
    ensures Split(Join(parts, sep), sep) == parts
    decreases |parts|
  {
    if |parts| == 1 {
      SplitPrefix(parts[0], "", sep);
      assert parts[0] + "" == parts[0];
    } else {
      var tail := Join(parts[1..], sep);
      SplitJoin(parts[1..], sep);
      assert Join(parts, sep) == parts[0] + ([sep] + tail);
      SplitPrefix(parts[0], [sep] + tail, sep);
      assert ([sep] + tail)[1..] == tail;
      assert Split([sep] + tail, sep) == [""] + parts[1..];
      assert parts[0] + "" == parts[0];
      assert [parts[0]] + parts[1..] == parts;
    }
  }

  lemma JoinHasSeparator(parts: seq<string>, sep: char)
    requires |parts| >= 2
    ensures sep in Join(parts, sep)
  {
    assert Join(parts, sep)[|parts[0]|] == sep;
  }

  /** A character that is not the separator and in no part is not in the join. */
  lemma {:induction false} JoinWithout(parts: seq<string>, sep: char, c: char)
    requires c != sep && forall i | 0 <= i < |parts| :: c !in parts[i]
    ensures c !in Join(parts, sep)
    decreases |parts|
  {
    if |parts| >= 2 {
      JoinWithout(parts[1..], sep, c);
      assert Join(parts, sep) == parts[0] + [sep] + Join(parts[1..], sep);
    }
  }

  /** Parts without whitespace joined by a separator that is no whitespace have none either. */
  lemma {:induction false} JoinNoWhitespace(parts: seq<string>, sep: char)
    requires !IsWhitespace(sep) && forall i | 0 <= i < |parts| :: NoWhitespace(parts[i])
    ensures NoWhitespace(Join(parts, sep))
    decreases |parts|
  {
    if |parts| >= 2 {
      JoinNoWhitespace(parts[1..], sep);
      var tail := Join(parts[1..], sep);
      var j := parts[0] + [sep] + tail;
      assert Join(parts, sep) == j;
      forall k | 0 <= k < |j| ensures !IsWhitespace(j[k]) {
        if k < |parts[0]| {
          assert j[k] == parts[0][k];
        } else if k > |parts[0]| {
          assert j[k] == tail[k - |parts[0]| - 1];
        }
      }
    }
  }

  lemma JoinStartsWithFirst(parts: seq<string>, sep: char)
    requires |parts| > 0 && |parts[0]| > 0
    ensures |Join(parts, sep)| > 0 && Join(parts, sep)[0] == parts[0][0]
  {
  }

  lemma {:induction false} JoinEndsWithLast(parts: seq<string>, sep: char)
    requires |parts| > 0 && |parts[|parts| - 1]| > 0
    ensures var j := Join(parts, sep); |j| > 0 && j[|j| - 1] == parts[|parts| - 1][|parts[|parts| - 1]| - 1]
    decreases |parts|
  {
    if |parts| >= 2 {
      JoinEndsWithLast(parts[1..], sep);
    }
  }

  // ---- One segment ----

  lemma {:induction false} KeyRunOf(key: string, rest: string)
    requires forall k | 0 <= k < |key| :: IsKeyChar(key[k])
    requires |rest| == 0 || !IsKeyChar(rest[0])
    ensures KeyRun(key + rest) == |key|
    decreases |key|
  {
    if |key| > 0 {
      assert (key + rest)[1..] == key[1..] + rest;
      KeyRunOf(key[1..], rest);
    } else {
      assert key + rest == rest;
    }
  }

  lemma {:induction false} BracketRunOf(body: string, rest: string)
    requires ']' !in body
    ensures BracketRun(body + "]" + rest) == |body|
    decreases |body|
  {
    if |body| > 0 {
      assert (body + "]" + rest)[1..] == body[1..] + "]" + rest;
      BracketRunOf(body[1..], rest);
    }
  }

  /** What a printed index expression looks like: non-empty, no `]`, not `*` or `?` first, clean ends. */
  predicate BracketBody(body: string) {
    |body| > 0 && ']' !in body && BracketStart(body[0]) && !IsControlOrSpace(body[|body| - 1])
  }

  /** A character an index expression may start with: not `*` or `?`, which make other segments, and no blank. */
  predicate BracketStart(c: char) {
    c != '*' && c != '?' && !IsControlOrSpace(c)
  }

  /** A bracketed expression is one index token, whatever follows it. */
  lemma BracketTokenOfPath(body: string, rest: string)
    requires BracketBody(body)
    ensures NextToken("[" + body + "]" + rest) == Ok(IndexToken(body))
  {
    var remaining := "[" + body + "]" + rest;
    assert remaining[1..] == body + "]" + rest;
    BracketRunOf(body, rest);
    assert remaining[1..1 + |body|] == body;
    IndexTokenAt(remaining, |body|);
  }

  /** An index token whose expression has clean ends and reads as `x` stands for `x`. */
  lemma IndexTokenSegment(body: string, predicates: Predicates, x: Strand)
    requires BracketBody(body) && ParseIndexExpression(body) == Ok(x)
    ensures TokenSegment(IndexToken(body), predicates) == Ok(Segment(x, 0))
  {
    assert Trim(body, ControlOrSpace) == body;
  }

  /** The strings of an index list have no separators and clean ends. */
  lemma IndexStringsChars(indices: seq<Int32>)
    ensures var strs := IndexStrings(indices);
      forall i | 0 <= i < |strs| ::
        && ',' !in strs[i] && ':' !in strs[i] && ']' !in strs[i] && |strs[i]| > 0
        && !IsControlOrSpace(strs[i][0]) && !IsControlOrSpace(strs[i][|strs[i]| - 1]) && strs[i][0] != '\''
  {
    var strs := IndexStrings(indices);
    forall i | 0 <= i < |strs|
      ensures ',' !in strs[i] && ':' !in strs[i] && ']' !in strs[i] && |strs[i]| > 0
      ensures !IsControlOrSpace(strs[i][0]) && !IsControlOrSpace(strs[i][|strs[i]| - 1]) && strs[i][0] != '\''
    {
      IntStringChars(indices[i]);
    }
  }

  /** The strings of an index list are integer literals that read back to the indices. */
  lemma IndexStringsParse(indices: seq<Int32>)
    ensures var strs := IndexStrings(indices);
      forall i | 0 <= i < |strs| :: IsIntegerLiteral(strs[i]) && ParseInt(strs[i]) == Ok(indices[i])
  {
    var strs := IndexStrings(indices);
    forall i | 0 <= i < |strs| ensures IsIntegerLiteral(strs[i]) && ParseInt(strs[i]) == Ok(indices[i]) {
      ParseIntOfString(indices[i]);
    }
  }

  /** Parts joined into a bracket body: the first part starts it cleanly, the last ends it cleanly, none holds `]`. */
  lemma JoinBracketBody(parts: seq<string>, sep: char)
    requires |parts| > 0 && sep != ']'
    requires forall i | 0 <= i < |parts| :: ']' !in parts[i]
    requires |parts[0]| > 0 && BracketStart(parts[0][0])
    requires |parts[|parts| - 1]| > 0 && !IsControlOrSpace(parts[|parts| - 1][|parts[|parts| - 1]| - 1])
    ensures BracketBody(Join(parts, sep))
  {
    JoinWithout(parts, sep, ']');
    JoinStartsWithFirst(parts, sep);
    JoinEndsWithLast(parts, sep);
  }

  /** The body of a printed index list: clean ends and no `]`. */
  lemma IndexBody(indices: seq<Int32>)
    requires |indices| > 0
    ensures BracketBody(Join(IndexStrings(indices), ','))
  {
    var strs := IndexStrings(indices);
    forall i | 0 <= i < |strs| ensures ']' !in strs[i] {
      IntStringChars(indices[i]);
    }
    IntStringChars(indices[0]);
    JoinBracketBody(strs, ',');
  }

  /** The body of a printed index list reads back as the indices. */
  lemma IndexExpressionOfPath(indices: seq<Int32>)
    requires |indices| > 0
    ensures ParseIndexExpression(Join(IndexStrings(indices), ',')) == Ok(IndexStrand(indices))
  {
    if |indices| == 1 {
      SingleIndexOfPath(indices[0]);
      assert IndexStrings(indices) == [IntToString(indices[0])];
      assert [indices[0]] == indices;
    } else {
      IndexListOfPath(indices);
    }
  }

  lemma SingleIndexOfPath(index: Int32)
    ensures ParseIndexExpression(Join([IntToString(index)], ',')) == Ok(IndexStrand([index]))
  {
    var body := IntToString(index);
    assert Join([body], ',') == body;
    IntStringChars(index);
    ParseIntOfString(index);
    SingleIndexExpression(body);
  }

  lemma IndexListOfPath(indices: seq<Int32>)
    requires |indices| >= 2
    ensures ParseIndexExpression(Join(IndexStrings(indices), ',')) == Ok(IndexStrand(indices))
  {
    var strs := IndexStrings(indices);
    JoinHasSeparator(strs, ',');
    IndexListSplit(indices);
    FirstIndexUnquoted(indices);
    IndexListExpression(Join(strs, ','));
    IndexStringsRead(indices);
  }

  /** The first entry of a printed index list does not start with a quote, so the list reads as indices. */
  lemma FirstIndexUnquoted(indices: seq<Int32>)
    requires |indices| > 0
    ensures |IndexStrings(indices)| > 0 && !At(Trim(IndexStrings(indices)[0], ControlOrSpace), 0, '\'')
  {
    IntStringChars(indices[0]);
  }

  /** Splitting the body of a printed index list gives back the index strings. */
  lemma IndexListSplit(indices: seq<Int32>)
    requires |indices| >= 2
    ensures DropTrailingEmpty(Split(Join(IndexStrings(indices), ','), ',')) == IndexStrings(indices)
  {
    var strs := IndexStrings(indices);
    forall i | 0 <= i < |strs| ensures ',' !in strs[i] {
      IntStringChars(indices[i]);
    }
    SplitJoin(strs, ',');
    assert strs[|strs| - 1] != "";
  }

  /** The index strings, trimmed, read back as the indices. */
  lemma IndexStringsRead(indices: seq<Int32>)
    ensures ParseIndices(TrimAll(IndexStrings(indices))) == Ok(indices)
  {
    IndexStringsTrimmed(indices);
    IndexStringsParse(indices);
    ParseIndicesOfStrings(IndexStrings(indices), indices);
  }

  lemma IndexStringsTrimmed(indices: seq<Int32>)
    ensures TrimAll(IndexStrings(indices)) == IndexStrings(indices)
  {
    var strs := IndexStrings(indices);
    forall i | 0 <= i < |strs| ensures Trim(strs[i], Whitespace) == strs[i] {
      IntStringChars(indices[i]);
    }
  }

  lemma {:induction false} ParseIndicesOfStrings(strs: seq<string>, indices: seq<Int32>)
    requires |strs| == |indices|
    requires forall i | 0 <= i < |strs| :: IsIntegerLiteral(strs[i]) && ParseInt(strs[i]) == Ok(indices[i])
    ensures ParseIndices(strs) == Ok(indices)
    decreases |strs|
  {
    if |strs| > 0 {
      ParseIndicesOfStrings(strs[1..], indices[1..]);
      assert [indices[0]] + indices[1..] == indices;
    }
  }

  /** A quoted key has its quotes at the ends, no separator, and the key between them. */
  lemma QuotedKeyFacts(key: string)
    requires PrintableKey(key)
    ensures var q := "'" + key + "'";
      && ',' !in q && ']' !in q && |q| >= 2 && q[0] == '\'' && q[|q| - 1] == '\'' && q[1..|q| - 1] == key
      && NoWhitespace(q) && Trim(q, Whitespace) == q && Trim(key, Whitespace) == key
  {
    var q := "'" + key + "'";
    assert ',' !in key && ']' !in key && NoWhitespace(key) by {
      forall k | 0 <= k < |key| ensures key[k] != ',' && key[k] != ']' && !IsWhitespace(key[k]) {
        assert IsKeyChar(key[k]);
      }
    }
    assert NoWhitespace(q) by {
      forall k | 0 <= k < |q| ensures !IsWhitespace(q[k]) {
        assert k == 0 || k == |q| - 1 || q[k] == key[k - 1];
      }
    }
    assert q[1..|q| - 1] == key;
  }

  /** Every quoted key is quoted at both ends and holds no `,` or `]`. */
  lemma QuotedKeysShape(keys: seq<string>)
    requires forall i | 0 <= i < |keys| :: PrintableKey(keys[i])
    ensures var quoted := QuotedKeys(keys);
      forall i | 0 <= i < |quoted| ::
        && ',' !in quoted[i] && ']' !in quoted[i] && |quoted[i]| >= 2
        && quoted[i][0] == '\'' && quoted[i][|quoted[i]| - 1] == '\''
  {
    forall i | 0 <= i < |keys| {
      QuotedKeyFacts(keys[i]);
    }
  }

  /** Trimming leaves the quoted keys as they are. */
  lemma QuotedKeysTrimmed(keys: seq<string>)
    requires forall i | 0 <= i < |keys| :: PrintableKey(keys[i])
    ensures TrimAll(QuotedKeys(keys)) == QuotedKeys(keys)
  {
    var quoted := QuotedKeys(keys);
    forall i | 0 <= i < |keys| ensures Trim(quoted[i], Whitespace) == quoted[i] {
      QuotedKeyFacts(keys[i]);
    }
  }

  /** The body of a printed key list: clean ends and no `]`. */
  lemma KeyListBody(keys: seq<string>)
    requires |keys| >= 2 && forall i | 0 <= i < |keys| :: PrintableKey(keys[i])
    ensures BracketBody(Join(QuotedKeys(keys), ','))
  {
    var quoted := QuotedKeys(keys);
    forall i | 0 <= i < |quoted| ensures ']' !in quoted[i] {
      QuotedKeyFacts(keys[i]);
    }
    QuotedKeyFacts(keys[0]);
    QuotedKeyFacts(keys[|keys| - 1]);
    JoinBracketBody(quoted, ',');
  }

  lemma {:induction false} UnquoteKeys(keys: seq<string>)
    requires forall i | 0 <= i < |keys| :: PrintableKey(keys[i])
    ensures Unquote(QuotedKeys(keys)) == Ok(keys)
    decreases |keys|
  {
    if |keys| > 0 {
      var quoted := QuotedKeys(keys);
      UnquoteKey(keys[0]);
      assert Unquote(quoted[1..]) == Ok(keys[1..]) by {
        assert quoted[1..] == QuotedKeys(keys[1..]);
        UnquoteKeys(keys[1..]);
      }
      assert [keys[0]] + keys[1..] == keys;
    }
  }

  /** Stripping the quotes from a quoted printable key gives the key, which trimming leaves alone. */
  lemma UnquoteKey(key: string)
    requires PrintableKey(key)
    ensures var q := "'" + key + "'"; Substring(q, 1, |q| - 1) == Ok(key) && Trim(key, Whitespace) == key
  {
    QuotedKeyFacts(key);
  }

  /** The body of a printed key list reads back as the keys. */
  lemma KeyListOfPath(keys: seq<string>)
    requires |keys| >= 2 && forall i | 0 <= i < |keys| :: PrintableKey(keys[i])
    ensures ParseIndexExpression(Join(QuotedKeys(keys), ',')) == Ok(KeyStrand(keys))
  {
    JoinHasSeparator(QuotedKeys(keys), ',');
    KeyListSplit(keys);
    FirstQuotedKey(keys);
    KeyListExpression(Join(QuotedKeys(keys), ','));
    KeysRead(keys);
  }

  /** The first entry of a printed key list opens with a quote, so the list is read as keys. */
  lemma FirstQuotedKey(keys: seq<string>)
    requires |keys| > 0 && PrintableKey(keys[0])
    ensures At(Trim(QuotedKeys(keys)[0], ControlOrSpace), 0, '\'')
  {
    QuotedKeyFacts(keys[0]);
    assert Trim(QuotedKeys(keys)[0], ControlOrSpace) == QuotedKeys(keys)[0];
  }

  /** Trimming and unquoting the quoted keys gives the keys back. */
  lemma KeysRead(keys: seq<string>)
    requires forall i | 0 <= i < |keys| :: PrintableKey(keys[i])
    ensures Unquote(TrimAll(QuotedKeys(keys))) == Ok(keys)
  {
    QuotedKeysTrimmed(keys);
    UnquoteKeys(keys);
  }

  lemma KeyListSplit(keys: seq<string>)
    requires |keys| >= 2 && forall i | 0 <= i < |keys| :: PrintableKey(keys[i])
    ensures DropTrailingEmpty(Split(Join(QuotedKeys(keys), ','), ',')) == QuotedKeys(keys)
  {
    QuotedKeysWithoutComma(keys);
    assert QuotedKeys(keys)[|keys| - 1] != "" by { QuotedKeyFacts(keys[|keys| - 1]); }
    SplitJoin(QuotedKeys(keys), ',');
  }

  lemma QuotedKeysWithoutComma(keys: seq<string>)
    requires forall i | 0 <= i < |keys| :: PrintableKey(keys[i])
    ensures forall i | 0 <= i < |keys| :: ',' !in QuotedKeys(keys)[i]
  {
    forall i | 0 <= i < |keys| ensures ',' !in QuotedKeys(keys)[i] {
      QuotedKeyFacts(keys[i]);
    }
  }

  /** The body of a printed slice: clean ends, no `,` or `]`, not starting with `:`. */
  lemma SliceBody(start: Int32, end: Int32)
    ensures var body := RangeText(start, end);
      BracketBody(body) && ',' !in body && ':' in body && body[0] != ':'
  {
    var a := IntToString(start);
    var b := if end == UPPER_UNBOUNDED then "" else IntToString(end);
    var body := a + ":" + b;
    IntStringChars(start);
    if end != UPPER_UNBOUNDED {
      IntStringChars(end);
    }
    assert ',' !in body && ']' !in body by {
      forall k | 0 <= k < |body| ensures body[k] != ',' && body[k] != ']' {
        if k < |a| { assert body[k] == a[k]; } else if k > |a| { assert body[k] == b[k - |a| - 1]; }
      }
    }
    assert body[|a|] == ':';
  }

  /** The body of a printed slice reads back as the slice. */
  lemma SliceExpressionOfPath(start: Int32, end: Int32)
    ensures ParseIndexExpression(RangeText(start, end)) == Ok(ArraySliceStrand(start, end))
  {
    SliceBody(start, end);
    RangeExpression(RangeText(start, end));
    if end == UPPER_UNBOUNDED {
      OpenEndRangeOfPath(start);
    } else {
      TwoBoundRangeOfPath(start, end);
    }
  }

  lemma OpenEndRangeOfPath(start: Int32)
    ensures ParseRangeExpression(IntToString(start) + ":" + "") == Ok(ArraySliceStrand(start, UPPER_UNBOUNDED))
  {
    var a := IntToString(start);
    var body := a + ":" + "";
    IntStringChars(start);
    ParseIntOfString(start);
    assert body[..|body| - 1] == a;
    OpenEndRange(body);
  }

  lemma TwoBoundRangeOfPath(start: Int32, end: Int32)
    ensures ParseRangeExpression(IntToString(start) + ":" + IntToString(end)) == Ok(ArraySliceStrand(start, end))
  {
    var a := IntToString(start);
    var b := IntToString(end);
    var body := a + ":" + b;
    IntStringChars(start);
    IntStringChars(end);
    ParseIntOfString(start);
    ParseIntOfString(end);
    assert body[|body| - 1] == b[|b| - 1];
    assert body == Join([a, b], ':');
    SplitJoin([a, b], ':');
    TwoBoundRange(body);
  }

  /** The token the path string of a printable strand is read as. */
  function TokenOf(x: Strand): Token {
    match x
    case IndexStrand(indices) => IndexToken(Join(IndexStrings(indices), ','))
    case KeyStrand(keys) => if |keys| == 1 then KeyToken(keys[0]) else IndexToken(Join(QuotedKeys(keys), ','))
    case ArraySliceStrand(start, end) => IndexToken(RangeText(start, end))
    case ConditionalStrand(_) => ConditionalToken
    case DeepScanStrand(key) => DeepScanToken(key)
    case _ => WildcardToken(2)
  }

  lemma KeyTokenOfPath(key: string, rest: string)
    requires PrintableKey(key) && SegmentBoundary(rest)
    ensures NextToken("." + key + rest) == Ok(KeyToken(key))
  {
    var remaining := "." + key + rest;
    assert remaining[1..] == key + rest;
    KeyRunOf(key, rest);
    assert remaining[1..1 + |key|] == key;
    KeyTokenAt(remaining);
  }

  lemma DeepScanTokenOfPath(key: string, rest: string)
    requires PrintableKey(key) && SegmentBoundary(rest)
    ensures NextToken(".." + key + rest) == Ok(DeepScanToken(key))
  {
    var remaining := ".." + key + rest;
    assert remaining[2..] == key + rest;
    KeyRunOf(key, rest);
    assert remaining[2..2 + |key|] == key;
    DeepScanTokenAt(remaining);
  }

  lemma WildcardTokenOfPath(rest: string)
    ensures NextToken(".*" + rest) == Ok(WildcardToken(2))
  {
    WildcardTokenAt(".*" + rest);
  }

  lemma ConditionalTokenOfPath(rest: string)
    ensures NextToken("[?]" + rest) == Ok(ConditionalToken)
  {
    ConditionalTokenAt("[?]" + rest);
  }

  lemma IndexTokenOfPath(indices: seq<Int32>, rest: string)
    requires |indices| > 0
    ensures NextToken(IndexPath(indices) + rest) == Ok(IndexToken(Join(IndexStrings(indices), ',')))
  {
    IndexBody(indices);
    BracketTokenOfPath(Join(IndexStrings(indices), ','), rest);
  }

  lemma KeyListTokenOfPath(keys: seq<string>, rest: string)
    requires |keys| >= 2 && forall i | 0 <= i < |keys| :: PrintableKey(keys[i])
    ensures NextToken(KeyPath(keys) + rest) == Ok(IndexToken(Join(QuotedKeys(keys), ',')))
  {
    KeyListBody(keys);
    BracketTokenOfPath(Join(QuotedKeys(keys), ','), rest);
  }

  lemma SliceTokenOfPath(start: Int32, end: Int32, rest: string)
    ensures NextToken(SlicePath(start, end) + rest) == Ok(IndexToken(RangeText(start, end)))
  {
    SliceBody(start, end);
    BracketTokenOfPath(RangeText(start, end), rest);
  }

  /** The token of a printable strand covers its whole path string. */
  lemma TokenLengthOfPath(x: Strand)
    requires Printable(x)
    ensures TokenLength(TokenOf(x)) == |PathString(x)|
  {
  }

  /** The path string of a printable strand, followed by a segment boundary, is read as its token. */
  lemma TokenOfPath(x: Strand, rest: string)
    requires Printable(x) && SegmentBoundary(rest)
    ensures NextToken(PathString(x) + rest) == Ok(TokenOf(x))
  {
    match x {
      case WildcardStrand => WildcardTokenOfPath(rest);
      case ConditionalStrand(_) => ConditionalTokenOfPath(rest);
      case KeyStrand(keys) =>
        if |keys| == 1 {
          KeyTokenOfPath(keys[0], rest);
        } else {
          KeyListTokenOfPath(keys, rest);
        }
      case DeepScanStrand(key) => DeepScanTokenOfPath(key, rest);
      case IndexStrand(indices) => IndexTokenOfPath(indices, rest);
      case ArraySliceStrand(start, end) => SliceTokenOfPath(start, end, rest);
    }
  }

  /** The token of a printable strand stands for that strand and takes the strand's own predicates. */
  lemma SegmentOfToken(x: Strand, predicates: Predicates)
    requires Printable(x)
    ensures TokenSegment(TokenOf(x), StrandTests(x) + predicates) == Ok(Segment(x, |StrandTests(x)|))
  {
    match x {
      case ConditionalStrand(_) =>
      case KeyStrand(keys) =>
        if |keys| != 1 {
          KeyListBody(keys);
          KeyListOfPath(keys);
          IndexTokenSegment(Join(QuotedKeys(keys), ','), [] + predicates, x);
        } else {
          assert [keys[0]] == keys;
        }
      case IndexStrand(indices) =>
        IndexBody(indices);
        IndexExpressionOfPath(indices);
        IndexTokenSegment(Join(IndexStrings(indices), ','), [] + predicates, x);
      case ArraySliceStrand(start, end) =>
        SliceBody(start, end);
        SliceExpressionOfPath(start, end);
        IndexTokenSegment(RangeText(start, end), [] + predicates, x);
      case _ =>
    }
  }

  // ---- Whole chains ----

  lemma PathStartsSegment(x: Strand)
    requires Printable(x)
    ensures |PathString(x)| > 0 && SegmentBoundary(PathString(x))
  {
    if x.KeyStrand? && |x.keys| != 1 {
      assert KeyPath(x.keys)[0] == '[';
    }
  }

  lemma PathHasNoWhitespace(x: Strand)
    requires Printable(x)
    ensures NoWhitespace(PathString(x))
  {
    match x {
      case IndexStrand(indices) =>
        var strs := IndexStrings(indices);
        forall i | 0 <= i < |strs| ensures NoWhitespace(strs[i]) {
          IntStringChars(indices[i]);
        }
        JoinNoWhitespace(strs, ',');
      case KeyStrand(keys) =>
        if |keys| != 1 {
          var quoted := QuotedKeys(keys);
          forall i | 0 <= i < |quoted| ensures NoWhitespace(quoted[i]) {
            QuotedKeyFacts(keys[i]);
          }
          JoinNoWhitespace(quoted, ',');
          assert PathString(x) == "[" + Join(quoted, ',') + "]";
        }
      case ArraySliceStrand(start, end) =>
        IntStringChars(start);
        if end != UPPER_UNBOUNDED { IntStringChars(end); }
      case _ =>
    }
  }

  lemma {:induction false} ChainPathFacts(chain: seq<Strand>)
    requires forall i | 0 <= i < |chain| :: Printable(chain[i])
    ensures SegmentBoundary(ChainPath(chain)) && NoWhitespace(ChainPath(chain))
    decreases |chain|
  {
    if |chain| > 0 {
      ChainPathFacts(chain[1..]);
      PathStartsSegment(chain[0]);
      PathHasNoWhitespace(chain[0]);
    }
  }

  lemma {:induction false} PathOfBuild(parsed: Strand, chain: seq<Strand>)
    ensures PathString(BuildOn(parsed, chain)) == PathString(parsed) + ChainPath(chain)
    decreases |chain|
  {
    if |chain| > 0 {
      PathOfBuild(ComposedStrand(parsed, chain[0]), chain[1..]);
    } else {
      assert PathString(parsed) + "" == PathString(parsed);
    }
  }

  /** Parsing the printed chain composes the chain onto what was parsed before, using its predicates. */
  lemma {:induction false} ParseChain(parsed: Strand, chain: seq<Strand>, rest: string, predicates: Predicates)
    requires forall i | 0 <= i < |chain| :: Printable(chain[i])
    requires SegmentBoundary(rest)
    ensures ParseRemaining(parsed, ChainPath(chain) + rest, ChainTests(chain) + predicates)
         == ParseRemaining(BuildOn(parsed, chain), rest, predicates)
    decreases |chain|
  {
    if |chain| == 0 {
      assert "" + rest == rest;
      assert [] + predicates == predicates;
    } else {
      ParseChainStep(parsed, chain, rest, predicates);
      ParseChain(ComposedStrand(parsed, chain[0]), chain[1..], rest, predicates);
    }
  }

  /** The first strand of the chain is parsed off the front of its path. */
  lemma ParseChainStep(parsed: Strand, chain: seq<Strand>, rest: string, predicates: Predicates)
    requires |chain| > 0 && forall i | 0 <= i < |chain| :: Printable(chain[i])
    requires SegmentBoundary(rest)
    ensures ParseRemaining(parsed, ChainPath(chain) + rest, ChainTests(chain) + predicates)
         == ParseRemaining(ComposedStrand(parsed, chain[0]), ChainPath(chain[1..]) + rest, ChainTests(chain[1..]) + predicates)
  {
    var x := chain[0];
    var later := ChainPath(chain[1..]) + rest;
    var laterTests := ChainTests(chain[1..]) + predicates;
    assert SegmentBoundary(later) by { ChainPathFacts(chain[1..]); }
    assert ChainPath(chain) + rest == PathString(x) + later;
    assert ChainTests(chain) + predicates == StrandTests(x) + laterTests;
    ParseStrand(parsed, x, later, laterTests);
  }

  /** One printed strand followed by a segment boundary is parsed as that strand, taking its own predicates. */
  lemma ParseStrand(parsed: Strand, x: Strand, later: string, laterTests: Predicates)
    requires Printable(x) && SegmentBoundary(later)
    ensures ParseRemaining(parsed, PathString(x) + later, StrandTests(x) + laterTests)
         == ParseRemaining(ComposedStrand(parsed, x), later, laterTests)
  {
    PathStartsSegment(x);
    TokenOfPath(x, later);
    TokenLengthOfPath(x);
    SegmentOfToken(x, laterTests);
    ParseRemainingStep(parsed, PathString(x) + later, StrandTests(x) + laterTests, TokenOf(x), Segment(x, |StrandTests(x)|));
    assert (PathString(x) + later)[|PathString(x)|..] == later;
    assert (StrandTests(x) + laterTests)[|StrandTests(x)|..] == laterTests;
  }

  /**
   * The round trip: the path string of a printable chain on the root, parsed with the chain's
   * predicates, is that chain.
   */
  lemma ParsePrintedPath(chain: seq<Strand>)
    requires forall i | 0 <= i < |chain| :: Printable(chain[i])
    ensures Parse(PathString(BuildOn(RootStrand, chain)), ChainTests(chain)) == Ok(BuildOn(RootStrand, chain))
  {
    PrintedText(chain);
    ParseFromRoot(PathString(BuildOn(RootStrand, chain)), ChainPath(chain), ChainTests(chain));
    ParseWholeChain(RootStrand, chain);
  }

  /** The printed text of a chain on the root starts with `$`, goes on with the chain's path and does not end in whitespace. */
  lemma PrintedText(chain: seq<Strand>)
    requires forall i | 0 <= i < |chain| :: Printable(chain[i])
    ensures RootText(PathString(BuildOn(RootStrand, chain)), ChainPath(chain))
  {
    PrintedOnRoot(chain);
    var path := ChainPath(chain);
    var text := PathString(BuildOn(RootStrand, chain));
    assert text[1..] == path;
    if |path| > 0 {
      assert text[|text| - 1] == path[|path| - 1];
    }
  }

  /** The printed text of a chain on the root is `$` and the chain's path, which does not end in whitespace. */
  lemma PrintedOnRoot(chain: seq<Strand>)
    requires forall i | 0 <= i < |chain| :: Printable(chain[i])
    ensures PathString(BuildOn(RootStrand, chain)) == "$" + ChainPath(chain)
    ensures var path := ChainPath(chain); |path| == 0 || !IsWhitespace(path[|path| - 1])
  {
    PathOfBuild(RootStrand, chain);
    ChainPathFacts(chain);
  }

  /** The whole path of a printable chain, with exactly its predicates, parses to the chain. */
  lemma ParseWholeChain(parsed: Strand, chain: seq<Strand>)
    requires forall i | 0 <= i < |chain| :: Printable(chain[i])
    ensures ParseRemaining(parsed, ChainPath(chain), ChainTests(chain)) == Ok(BuildOn(parsed, chain))
  {
    assert ChainPath(chain) + "" == ChainPath(chain);
    assert ChainTests(chain) + [] == ChainTests(chain);
    ParseChain(parsed, chain, "", []);
  }

  /**
   * The slice path as the source prints it has no brackets, so the parser rejects it: a slice
   * from 0 to 3 prints as `:3`, and `$:3` is not a path.
   */
  lemma SlicePathAsWrittenDoesNotParse()
    ensures SlicePathAsWritten(0, 3) == ":3"
    ensures Parse("$" + SlicePathAsWritten(0, 3), []) == Err(IllegalArgument("Unrecognised path segment: :3"))
  {
    assert IntToString(3) == "3";
    var text := "$" + SlicePathAsWritten(0, 3);
    assert text == "$:3";
    ParseFromRoot(text, ":3", []);
    UnrecognisedSegment(RootStrand, ":3", []);
    assert "Unrecognised path segment: " + ":3" == "Unrecognised path segment: :3";
  }

  /**
   * Even in brackets, the blank start and open end of a whole-array slice print as `[:]`, which
   * the parser rejects.
   */
  lemma OpenSlicePathAsWrittenDoesNotParse()
    ensures SlicePathAsWritten(0, UPPER_UNBOUNDED) == ":"
    ensures Parse("$[" + SlicePathAsWritten(0, UPPER_UNBOUNDED) + "]", []) == Err(IllegalArgument("\":\" is not a legal range expression"))
  {
    var text := "$[" + SlicePathAsWritten(0, UPPER_UNBOUNDED) + "]";
    assert text == "$[:]";
    ParseFromRoot(text, "[:]", []);
    OpenRangeSegment("[:]");
  }

  lemma OpenRangeSegment(remaining: string)
    requires remaining == "[:]"
    ensures ParseRemaining(RootStrand, remaining, []) == Err(IllegalArgument("\":\" is not a legal range expression"))
  {
    assert remaining == "[" + ":" + "]" + "";
    BracketTokenOfPath(":", "");
    LoneColonExpression();
    IndexTokenFails(":", []);
    ParseRemainingFails(RootStrand, remaining, [], IndexToken(":"));
  }

  /** An index expression with no blank at either end that fails to read stops the token with that error. */
  lemma IndexTokenFails(body: string, predicates: Predicates)
    requires |body| > 0 && !IsControlOrSpace(body[0]) && !IsControlOrSpace(body[|body| - 1])
    requires ParseIndexExpression(body).Err?
    ensures TokenSegment(IndexToken(body), predicates) == Err(ParseIndexExpression(body).error)
  {
    assert Trim(body, ControlOrSpace) == body;
  }

  /** A lone colon in brackets is read as a range expression, which rejects it. */
  lemma LoneColonExpression()
    ensures ParseIndexExpression(":") == Err(IllegalArgument("\":\" is not a legal range expression"))
  {
    RangeExpression(":");
    LoneColonRange();
  }
}
