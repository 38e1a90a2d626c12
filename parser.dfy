/** The parser object of src/parser.rs:3-7, 86-258: the input text and a
    cursor that its methods advance. Every method is proved to leave the
    cursor where the matching function of JsonGrammar says and to return
    the same result. */
module JsonParsing {
  import opened JsonTypes
  import opened JsonGrammar
  import Dispatch = JsonDispatch

  class JsonParser {
    const input: seq<char>
    var cursor: nat

    ghost predicate Valid()
      reads this
    {
      cursor <= |input|
    }

    /** A parser at the start of `input`, as the source's callers build it. */
    constructor (input: seq<char>)
      ensures Valid() && this.input == input && cursor == 0
    {
      this.input := input;
      cursor := 0;
    }

    /** `eof`: the cursor has reached the end of the input. */
    function Eof(): (r: bool)
      reads this
      ensures r <==> |input| <= cursor
    {
      cursor >= |input|
    }

    /** `peek`: the character at the cursor, or the sentinel '|' at end of input. */
    function Peek(): (c: char)
      reads this
      ensures cursor < |input| ==> c == input[cursor]
      ensures |input| <= cursor ==> c == EofSentinel
    {
      if Eof() then EofSentinel else input[cursor]
    }

    /** `skip_whitespace`. */
    method SkipWhitespace()
      requires Valid()
      modifies this
      ensures Valid() && cursor == SkipWs(input, old(cursor))
    {
      while !Eof()
        invariant old(cursor) <= cursor <= |input|
        invariant SkipWs(input, cursor) == SkipWs(input, old(cursor))
        decreases |input| - cursor
      {
        if !IsWhitespace(input[cursor]) {
          break;
        }
        cursor := cursor + 1;
      }
    }

    /** `consume_specific`: advance over `expected` if it is the character at
        the cursor. The callers never pass the sentinel, which would match at
        end of input and move the cursor past it. */
    method ConsumeSpecific(expected: char) returns (ok: bool)
      requires Valid() && expected != EofSentinel
      modifies this
      ensures Valid()
      ensures ok <==> old(cursor) < |input| && input[old(cursor)] == expected
      ensures cursor == if ok then old(cursor) + 1 else old(cursor)
    {
      if Peek() != expected {
        return false;
      }
      cursor := cursor + 1;
      return true;
    }

    /** `consume_and_unescape_string`. */
    method ConsumeAndUnescapeString() returns (r: Result<string>)
      requires Valid()
      modifies this
      ensures Valid() && Parsed(r, cursor) == StringAt(input, old(cursor))
    {
      var quoted := ConsumeSpecific('"');
      if !quoted {
        return Err(ParseError);
      }
      var builder := "";
      while Peek() != '"'
        invariant old(cursor) < cursor <= |input|
        invariant builder == input[old(cursor) + 1..cursor]
        invariant NextQuote(input, cursor) == NextQuote(input, old(cursor) + 1)
        decreases |input| - cursor
      {
        if Eof() {
          // the source keeps appending the sentinel here and never stops
          return Err(ParseError);
        }
        builder := builder + [Peek()];
        cursor := cursor + 1;
      }
      cursor := cursor + 1;
      return Ok(builder);
    }

    /** `parse_helper`. */
    method ParseHelper() returns (r: Result<JsonValue>)
      requires Valid()
      modifies this
      ensures Valid() && Parsed(r, cursor) == ValueAt(input, old(cursor))
      decreases |input| - cursor, 1
    {
      SkipWhitespace();
      match Dispatch.DetermineParseType(Peek())
      case Object => r := ParseObject();
      case Number => r := ParseNumber();
      case String => r := ParseString();
      case Boolean => r := ParseBool();
      case Null => r := ParseNull();
      case Array => r := ParseArray();
      case Unknown => r := Err(ParseHelperFailed);
    }

    /** `parse_object`. The body of its loop is split between ParseMember
        and ParseSeparator. */
    method ParseObject() returns (r: Result<JsonValue>)
      requires Valid()
      modifies this
      ensures Valid() && Parsed(r, cursor) == ObjectAt(input, old(cursor))
      decreases |input| - cursor, 0
    {
      var brace := ConsumeSpecific('{');
      if !brace {
        return Err(ParseError);
      }
      var values: map<string, JsonValue> := map[];
      while true
        invariant Valid() && old(cursor) < cursor
        invariant MembersFrom(input, cursor, values) == ObjectAt(input, old(cursor))
        decreases |input| - cursor
      {
        var member := ParseMember();
        if member.Err? {
          return Err(member.error);
        }
        values := values[member.value.0 := member.value.1];

        var closing := ParseSeparator();
        if closing.Err? {
          return Err(closing.error);
        }
        if closing.value {
          break;
        }
      }
      var closed := ConsumeSpecific('}');
      if !closed {
        return Err(ParseError);
      }
      return Ok(Object(values));
    }

    /** The first half of a pass of the loop of `parse_object`: a `}` at its
        head, the key, the `:` and the value. A failed key or value, where
        the source unwraps and panics, returns that failure. */
    method ParseMember() returns (r: Result<(string, JsonValue)>)
      requires Valid()
      modifies this
      ensures Valid() && Parsed(r, cursor) == MemberAt(input, old(cursor))
      decreases |input| - cursor, 0
    {
      SkipWhitespace();
      if Peek() == '}' {
        return Err(InvalidJson);
      }
      SkipWhitespace();

      // Get the property key.
      var key := ConsumeAndUnescapeString();
      if key.Err? {
        return Err(key.error);
      }

      SkipWhitespace();
      var colon := ConsumeSpecific(':');
      if !colon {
        return Err(ParseError);
      }
      SkipWhitespace();

      // Get the property value.
      var value := ParseHelper();
      if value.Err? {
        return Err(value.error);
      }
      return Ok((key.value, value.value));
    }

    /** The second half of a pass of the loop of `parse_object`: true when
        the object closes, false when a `,` leads to another pass. */
    method ParseSeparator() returns (r: Result<bool>)
      requires Valid()
      modifies this
      ensures Valid() && Parsed(r, cursor) == SeparatorAt(input, old(cursor))
    {
      SkipWhitespace();
      if Peek() == '}' {
        return Ok(true);
      }
      var comma := ConsumeSpecific(',');
      if !comma {
        return Err(ParseError);
      }
      SkipWhitespace();
      if Peek() == '}' {
        return Err(InvalidJson);
      }
      return Ok(false);
    }

    /** `parse_array`. A failed element, where the source unwraps and panics,
        returns that failure. */
    method ParseArray() returns (r: Result<JsonValue>)
      requires Valid()
      modifies this
      ensures Valid() && Parsed(r, cursor) == ArrayAt(input, old(cursor))
      decreases |input| - cursor, 0
    {
      var bracket := ConsumeSpecific('[');
      if !bracket {
        return Err(ParseError);
      }
      var elements: seq<JsonValue> := [];
      while Peek() != ']'
        invariant Valid() && old(cursor) < cursor
        invariant ElementsFrom(input, cursor, elements) == ArrayAt(input, old(cursor))
        decreases |input| - cursor
      {
        ghost var head, prefix := cursor, elements;
        SkipWhitespace();
        var element := ParseHelper();
        if element.Err? {
          return element;
        }
        elements := elements + [element.value];
        SkipWhitespace();
        var comma := ConsumeSpecific(',');
        if !comma && !(Peek() == ']') {
          return Err(ParseError);
        }
        ElementsStep(input, head, prefix, cursor);
      }
      var closed := ConsumeSpecific(']');
      if !closed {
        return Err(ParseError);
      }
      return Ok(Array(elements));
    }

    /** `parse_bool`. Where the source slices past the end of the input and
        panics, the word does not match. */
    method ParseBool() returns (r: Result<JsonValue>)
      requires Valid()
      modifies this
      ensures Valid() && Parsed(r, cursor) == BoolAt(input, old(cursor))
    {
      if cursor + 4 <= |input| && input[cursor..cursor + 4] == "true" {
        cursor := cursor + 4;
        return Ok(Bool(true));
      } else if cursor + 5 <= |input| && input[cursor..cursor + 5] == "false" {
        cursor := cursor + 5;
        return Ok(Bool(false));
      }
      return Err(ParseError);
    }

    /** `parse_null`. */
    method ParseNull() returns (r: Result<JsonValue>)
      requires Valid()
      modifies this
      ensures Valid() && Parsed(r, cursor) == NullAt(input, old(cursor))
    {
      if cursor + 4 <= |input| && input[cursor..cursor + 4] == "null" {
        cursor := cursor + 4;
        return Ok(Null);
      }
      return Err(ParseError);
    }

    /** `parse_string`. An unterminated string, where the source never
        returns, gives its error. */
    method ParseString() returns (r: Result<JsonValue>)
      requires Valid()
      modifies this
      ensures Valid() && Parsed(r, cursor) == StringValueAt(input, old(cursor))
    {
      var value := ConsumeAndUnescapeString();
      if value.Err? {
        return Err(value.error);
      }
      return Ok(String(value.value));
    }

    /** `parse_number`. */
    method ParseNumber() returns (r: Result<JsonValue>)
      requires Valid()
      modifies this
      ensures Valid() && Parsed(r, cursor) == NumberAt(input, old(cursor))
    {
      var value: nat := 0;
      while !Eof()
        invariant old(cursor) <= cursor <= |input|
        invariant forall k :: old(cursor) <= k < cursor ==> IsCountedDigit(input[k])
        invariant DigitRunEnd(input, cursor) == DigitRunEnd(input, old(cursor))
        invariant value == DecimalValue(input[old(cursor)..cursor])
        decreases |input| - cursor
      {
        var ch := Peek();
        if !IsCountedDigit(ch) {
          break;
        }
        assert input[old(cursor)..cursor + 1][..cursor - old(cursor)] == input[old(cursor)..cursor];
        value := value * 10 + DigitValue(ch);
        cursor := cursor + 1;
      }
      return Ok(Number(value));
    }

    /** `parse`: one value, then trailing whitespace, then end of input. */
    method Parse() returns (r: Result<JsonValue>)
      requires Valid()
      modifies this
      ensures Valid() && Parsed(r, cursor) == DocumentAt(input, old(cursor))
    {
      var value := ParseHelper();
      SkipWhitespace();
      if !Eof() {
        return Err(ConsumeInputNotFinished(cursor));
      }
      return value;
    }
  }

  /** What the source's tests do: build a parser at the start of a text and
      run `parse` on it. */
  method ParseText(text: string) returns (r: Result<JsonValue>)
    ensures r == Parse(text)
  {
    var parser := new JsonParser(text);
    r := parser.Parse();
  }
}
