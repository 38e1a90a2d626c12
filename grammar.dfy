/** The parser's behaviour as pure functions of (text, cursor). Each function
    gives the result the corresponding JsonParser method produces when
    started at that cursor, together with the cursor it leaves behind; the
    class in parser.dfy is proved to agree with them.

    Where the source panics (an `unwrap` on a failed nested parse, a byte
    slice past the end) or never terminates (an unterminated string), these
    functions return an error instead: the nested error itself for an
    `unwrap`, ParseError for the others. */
module JsonGrammar {
  import opened JsonTypes
  import Dispatch = JsonDispatch

  /** A result and the cursor position after producing it. */
  datatype Parsed<T> = Parsed(result: Result<T>, cursor: nat)

  /** What `peek` returns at end of input. A real '|' in the text is
      indistinguishable from it. */
  const EofSentinel: char := '|'

  /** `peek`: the character under the cursor, or the sentinel past the end. */
  function PeekAt(s: seq<char>, i: nat): (c: char)
    ensures c != EofSentinel ==> i < |s| && c == s[i]
  {
    if i < |s| then s[i] else EofSentinel
  }

  /** The cursor after `skip_whitespace`: the end of the maximal run of
      whitespace that starts at i. */
  function SkipWs(s: seq<char>, i: nat): (j: nat)
    requires i <= |s|
    ensures i <= j <= |s|
    ensures j == |s| || !IsWhitespace(s[j])
    decreases |s| - i
  {
    if i < |s| && IsWhitespace(s[i]) then SkipWs(s, i + 1) else i
  }

  /** Everything SkipWs passes over is whitespace. */
  lemma {:induction false} SkippedAreWhitespace(s: seq<char>, i: nat)
    requires i <= |s|
    ensures forall k :: i <= k < SkipWs(s, i) ==> IsWhitespace(s[k])
    decreases |s| - i
  {
    if i < |s| && IsWhitespace(s[i]) {
      SkippedAreWhitespace(s, i + 1);
    }
  }

  /** The word w occurs in s at position i. */
  predicate HasWordAt(s: seq<char>, i: nat, w: string)
  {
    i + |w| <= |s| && s[i..i + |w|] == w
  }

  /** The first quote at or after i, or |s| when there is none. */
  function NextQuote(s: seq<char>, i: nat): (q: nat)
    requires i <= |s|
    ensures i <= q <= |s|
    ensures q < |s| ==> s[q] == '"'
    decreases |s| - i
  {
    if i == |s| || s[i] == '"' then i else NextQuote(s, i + 1)
  }

  /** NextQuote passes over no quote. */
  lemma {:induction false} NoQuoteBefore(s: seq<char>, i: nat)
    requires i <= |s|
    ensures forall k :: i <= k < NextQuote(s, i) ==> s[k] != '"'
    decreases |s| - i
  {
    if i < |s| && s[i] != '"' {
      NoQuoteBefore(s, i + 1);
    }
  }

  /** `consume_and_unescape_string`: an opening quote, then every character
      up to the next quote, copied without escape processing. */
  function StringAt(s: seq<char>, i: nat): (p: Parsed<string>)
    requires i <= |s|
    ensures i <= p.cursor <= |s|
    ensures p.result.Ok? ==> i + 2 <= p.cursor
  {
    if PeekAt(s, i) != '"' then Parsed(Err(ParseError), i)
    else
      var q := NextQuote(s, i + 1);
      // the source loops for ever here, appending the eof sentinel
      if q == |s| then Parsed(Err(ParseError), |s|)
      else Parsed(Ok(s[i + 1..q]), q + 1)
  }

  /** The byte `parse_number` compares and adds up: the character cast to
      `u8`, which keeps the low eight bits of its code point. */
  function LowByte(c: char): (b: nat)
    ensures b < 256
    ensures c as int < 256 ==> b == c as int
  {
    (c as int) % 256
  }

  /** The digit class of `parse_number`: bytes '1' to '9'; '0' is left out. */
  predicate IsCountedDigit(c: char)
  {
    '0' as int < LowByte(c) <= '9' as int
  }

  /** What one digit adds at line 253: its byte less `b'0'`, never zero. */
  function DigitValue(c: char): (v: nat)
    requires IsCountedDigit(c)
    ensures 1 <= v <= 9
  {
    LowByte(c) - '0' as int
  }

  /** The end of the maximal run of counted digits that starts at i. */
  function DigitRunEnd(s: seq<char>, i: nat): (j: nat)
    requires i <= |s|
    ensures i <= j <= |s|
    ensures j == |s| || !IsCountedDigit(s[j])
    decreases |s| - i
  {
    if i < |s| && IsCountedDigit(s[i]) then DigitRunEnd(s, i + 1) else i
  }

  /** Everything DigitRunEnd passes over is a counted digit. */
  lemma {:induction false} RunIsDigits(s: seq<char>, i: nat)
    requires i <= |s|
    ensures forall k :: i <= k < DigitRunEnd(s, i) ==> IsCountedDigit(s[k])
    decreases |s| - i
  {
    if i < |s| && IsCountedDigit(s[i]) {
      RunIsDigits(s, i + 1);
    }
  }

  /** The base-10 value of a run of counted digits, most significant first. */
  function DecimalValue(ds: seq<char>): (n: nat)
    requires forall k :: 0 <= k < |ds| ==> IsCountedDigit(ds[k])
    ensures n == 0 <==> ds == []
  {
    if ds == [] then 0
    else DecimalValue(ds[..|ds| - 1]) * 10 + DigitValue(ds[|ds| - 1])
  }

  /** `parse_number`: the value of the maximal run of counted digits at i
      (zero and nothing consumed when the run is empty). */
  function NumberAt(s: seq<char>, i: nat): (p: Parsed<JsonValue>)
    requires i <= |s|
    ensures i <= p.cursor <= |s|
    ensures p.result.Ok? && p.result.value.Number?
    ensures p.result.value.n == 0 <==> p.cursor == i
  {
    var j := DigitRunEnd(s, i);
    RunIsDigits(s, i);
    Parsed(Ok(Number(DecimalValue(s[i..j]))), j)
  }

  /** `parse_bool`. */
  function BoolAt(s: seq<char>, i: nat): (p: Parsed<JsonValue>)
    requires i <= |s|
    ensures p.result.Ok? ==> p.result.value.Bool? && p.cursor <= |s|
    ensures p.result.Ok? ==> p.cursor == i + if p.result.value.b then 4 else 5
    ensures p.result.Err? ==> p == Parsed(Err(ParseError), i)
  {
    if HasWordAt(s, i, "true") then Parsed(Ok(Bool(true)), i + 4)
    else if HasWordAt(s, i, "false") then Parsed(Ok(Bool(false)), i + 5)
    else Parsed(Err(ParseError), i)
  }

  /** `parse_null`. */
  function NullAt(s: seq<char>, i: nat): (p: Parsed<JsonValue>)
    requires i <= |s|
    ensures p.result.Ok? ==> p == Parsed(Ok(Null), i + 4) && i + 4 <= |s|
    ensures p.result.Err? ==> p == Parsed(Err(ParseError), i)
  {
    if HasWordAt(s, i, "null") then Parsed(Ok(Null), i + 4)
    else Parsed(Err(ParseError), i)
  }

  /** `parse_string`. */
  function StringValueAt(s: seq<char>, i: nat): (p: Parsed<JsonValue>)
    requires i <= |s|
    ensures p.cursor == StringAt(s, i).cursor
    ensures p.result.Ok? <==> StringAt(s, i).result.Ok?
    ensures p.result.Ok? ==> p.result.value == String(StringAt(s, i).result.value)
  {
    var k := StringAt(s, i);
    match k.result
    case Ok(v) => Parsed(Ok(String(v)), k.cursor)
    case Err(e) => Parsed(Err(e), k.cursor)
  }

  /** `parse_helper`: skip whitespace, then dispatch on the lookahead. */
  function ValueAt(s: seq<char>, i: nat): (p: Parsed<JsonValue>)
    requires i <= |s|
    ensures i <= p.cursor <= |s|
    decreases |s| - i, 1
  {
    var j := SkipWs(s, i);
    match Dispatch.DetermineParseType(PeekAt(s, j))
    case Object => ObjectAt(s, j)
    case Array => ArrayAt(s, j)
    case Number => NumberAt(s, j)
    case String => StringValueAt(s, j)
    case Boolean => BoolAt(s, j)
    case Null => NullAt(s, j)
    case Unknown => Parsed(Err(ParseHelperFailed), j)
  }

  /** `parse_object`. */
  function ObjectAt(s: seq<char>, i: nat): (p: Parsed<JsonValue>)
    requires i <= |s|
    ensures i <= p.cursor <= |s|
    ensures p.result.Ok? ==> p.result.value.Object?
    decreases |s| - i, 0
  {
    if PeekAt(s, i) != '{' then Parsed(Err(ParseError), i)
    else MembersFrom(s, i + 1, map[])
  }

  /** The loop of `parse_object` from its head at cursor i, with the pairs
      read so far in m: a pair is read and stored (replacing an earlier
      value of the same key), then its separator either closes the object,
      fails it, or leads to the next pass. */
  function MembersFrom(s: seq<char>, i: nat, m: map<string, JsonValue>): (p: Parsed<JsonValue>)
    requires i <= |s|
    ensures i <= p.cursor <= |s|
    ensures p.result.Ok? ==> p.result.value.Object?
    decreases |s| - i, 1
  {
    var pair := MemberAt(s, i);
    match pair.result
    case Err(e) => Parsed(Err(e), pair.cursor)
    case Ok((key, value)) =>
      var sep := SeparatorAt(s, pair.cursor);
      match sep.result
      case Err(e) => Parsed(Err(e), sep.cursor)
      case Ok(true) => Parsed(Ok(Object(m[key := value])), sep.cursor + 1)
      case Ok(false) => MembersFrom(s, sep.cursor, m[key := value])
  }

  /** The first half of a pass of the object loop, from its head at cursor
      i: a `}` (after whitespace) is rejected, otherwise a `"key" : value`
      pair is read. */
  function MemberAt(s: seq<char>, i: nat): (p: Parsed<(string, JsonValue)>)
    requires i <= |s|
    ensures i <= p.cursor <= |s|
    ensures p.result.Ok? ==> i < p.cursor
    decreases |s| - i, 0
  {
    var a := SkipWs(s, i);
    if PeekAt(s, a) == '}' then Parsed(Err(InvalidJson), a)
    else
      var key := StringAt(s, SkipWs(s, a));
      if key.result.Err? then Parsed(Err(key.result.error), key.cursor)
      else
        var b := SkipWs(s, key.cursor);
        if PeekAt(s, b) != ':' then Parsed(Err(ParseError), b)
        else
          var v := ValueAt(s, SkipWs(s, b + 1));
          match v.result
          case Err(e) => Parsed(Err(e), v.cursor)
          case Ok(value) => Parsed(Ok((key.result.value, value)), v.cursor)
  }

  /** The second half of a pass, after a pair that ended at cursor e:
      Ok(true) when a `}` follows (left for the closing test after the
      loop), Ok(false) when a `,` does and no `}` comes right after it. */
  function SeparatorAt(s: seq<char>, e: nat): (p: Parsed<bool>)
    requires e <= |s|
    ensures e <= p.cursor <= |s|
    ensures p.result == Ok(true) ==> p.cursor < |s| && s[p.cursor] == '}'
    ensures p.result == Ok(false) ==> e < p.cursor
  {
    var c := SkipWs(s, e);
    if PeekAt(s, c) == '}' then Parsed(Ok(true), c)
    else if PeekAt(s, c) != ',' then Parsed(Err(ParseError), c)
    else
      var d := SkipWs(s, c + 1);
      if PeekAt(s, d) == '}' then Parsed(Err(InvalidJson), d)
      else Parsed(Ok(false), d)
  }

  /** `parse_array`. */
  function ArrayAt(s: seq<char>, i: nat): (p: Parsed<JsonValue>)
    requires i <= |s|
    ensures i <= p.cursor <= |s|
    ensures p.result.Ok? ==> p.result.value.Array?
    decreases |s| - i, 0
  {
    if PeekAt(s, i) != '[' then Parsed(Err(ParseError), i)
    else ElementsFrom(s, i + 1, [])
  }

  /** The loop of `parse_array` from its test at cursor i, with the elements
      read so far in acc. */
  function ElementsFrom(s: seq<char>, i: nat, acc: seq<JsonValue>): (p: Parsed<JsonValue>)
    requires i <= |s|
    ensures i <= p.cursor <= |s|
    ensures p.result.Ok? ==> p.result.value.Array?
    decreases |s| - i, 2
  {
    if PeekAt(s, i) == ']' then Parsed(Ok(Array(acc)), i + 1)
    else
      var v := ValueAt(s, SkipWs(s, i));
      if v.result.Err? then Parsed(Err(v.result.error), v.cursor)
      else
        var c := SkipWs(s, v.cursor);
        if PeekAt(s, c) == ',' then ElementsFrom(s, c + 1, acc + [v.result.value])
        else if PeekAt(s, c) == ']' then ElementsFrom(s, c, acc + [v.result.value])
        else Parsed(Err(ParseError), c)
  }

  /** One pass of the loop of `parse_array` that reads an element and stops
      at a `,` (consumed) or a `]` (left for the loop test). */
  lemma ElementsStep(s: seq<char>, i: nat, acc: seq<JsonValue>, next: nat)
    requires i <= |s| && PeekAt(s, i) != ']'
    requires ValueAt(s, SkipWs(s, i)).result.Ok?
    requires var c := SkipWs(s, ValueAt(s, SkipWs(s, i)).cursor);
      next == (if PeekAt(s, c) == ',' then c + 1 else c) && (PeekAt(s, c) == ',' || PeekAt(s, c) == ']')
    ensures i < next <= |s|
    ensures ElementsFrom(s, i, acc) == ElementsFrom(s, next, acc + [ValueAt(s, SkipWs(s, i)).result.value])
  {
  }

  /** `parse` started at cursor i: one value, then trailing whitespace, then
      end of input. Unconsumed input is reported even when the value failed. */
  function DocumentAt(s: seq<char>, i: nat): (p: Parsed<JsonValue>)
    requires i <= |s|
    ensures i <= p.cursor <= |s|
    ensures p.result.Ok? ==> p.cursor == |s|
  {
    var v := ValueAt(s, i);
    var j := SkipWs(s, v.cursor);
    if j < |s| then Parsed(Err(ConsumeInputNotFinished(j)), j)
    else Parsed(v.result, j)
  }

  /** The result of parsing a whole text with a fresh parser. */
  function Parse(text: string): (r: Result<JsonValue>)
    ensures r.Ok? ==> r == ValueAt(text, 0).result
  {
    DocumentAt(text, 0).result
  }
}
