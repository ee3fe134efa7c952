/**
 * The path string of a strand: the text that, read back by the path parser, names the strand.
 * Composition concatenates the two paths; each simple strand prints its own segment.
 */
module StrandPaths {
  import opened Segments
  import opened Strands

  predicate IsDigit(c: char) {
    '0' <= c <= '9'
  }

  function DigitChar(d: nat): (c: char)
    requires d < 10
    ensures IsDigit(c)
  {
    "0123456789"[d]
  }

  /** Decimal digits of a natural number, most significant first, without leading zeros. */
  function NatToString(n: nat): (r: string)
    ensures |r| > 0
    ensures forall k | 0 <= k < |r| :: IsDigit(r[k])
  {
    if n < 10 then [DigitChar(n)] else NatToString(n / 10) + [DigitChar(n % 10)]
  }

  /** Kotlin's `Int.toString()`: a minus sign for negative numbers, then the digits. */
  function IntToString(i: int): (r: string)
    ensures |r| > 0 && IsDigit(r[|r| - 1])
    ensures IsDigit(r[0]) || r[0] == '-'
    ensures forall k | 0 < k < |r| :: IsDigit(r[k])
  {
    if i < 0 then "-" + NatToString(-i) else NatToString(i)
  }

  /** `joinToString(sep)`: the parts with one separator between neighbours. */
  function Join(parts: seq<string>, sep: char): string
    decreases |parts|
  {
    if |parts| == 0 then ""
    else if |parts| == 1 then parts[0]
    else parts[0] + [sep] + Join(parts[1..], sep)
  }

  /** Each index as Kotlin prints it. */
  function IndexStrings(indices: seq<Int32>): (r: seq<string>)
    ensures |r| == |indices| && forall i | 0 <= i < |indices| :: r[i] == IntToString(indices[i])
  {
    if |indices| == 0 then [] else [IntToString(indices[0])] + IndexStrings(indices[1..])
  }

  /** Each key between single quotes. */
  function QuotedKeys(keys: seq<string>): (r: seq<string>)
    ensures |r| == |keys| && forall i | 0 <= i < |keys| :: r[i] == "'" + keys[i] + "'"
  {
    if |keys| == 0 then [] else ["'" + keys[0] + "'"] + QuotedKeys(keys[1..])
  }

  function IndexPath(indices: seq<Int32>): string {
    "[" + Join(IndexStrings(indices), ',') + "]"
  }

  function KeyPath(keys: seq<string>): string {
    if |keys| == 1 then "." + keys[0] else "[" + Join(QuotedKeys(keys), ',') + "]"
  }

  /** The slice path as the source prints it: no brackets, and a zero start or open end left blank. */
  function SlicePathAsWritten(start: Int32, end: Int32): string {
    (if start == 0 then "" else IntToString(start)) + ":" + (if end == UPPER_UNBOUNDED then "" else IntToString(end))
  }

  /** The range `start:end` with the start always written and an open end left blank. */
  function RangeText(start: Int32, end: Int32): string {
    IntToString(start) + ":" + (if end == UPPER_UNBOUNDED then "" else IntToString(end))
  }

  /** The slice path in the parser's own syntax: the range in brackets. */
  function SlicePath(start: Int32, end: Int32): string {
    "[" + RangeText(start, end) + "]"
  }

  /** The path string of a strand, with the slice segment in bracketed form. */
  function PathString(s: Strand): string {
    match s
    case RootStrand => "$"
    case ComposedStrand(first, second) => PathString(first) + PathString(second)
    case IndexStrand(indices) => IndexPath(indices)
    case KeyStrand(keys) => KeyPath(keys)
    case ArraySliceStrand(start, end) => SlicePath(start, end)
    case ConditionalStrand(_) => "[?]"
    case DeepScanStrand(key) => ".." + key
    case WildcardStrand => ".*"
    case DeepWildcardStrand => "..*"
  }
}
