/** The parser's value and error types and its whitespace class
    (src/parser.rs:9-25, 38-46). */
module JsonTypes {

  /** A parsed JSON value. Numbers are unbounded integers (the source uses
      i64); objects are maps, so a later insertion of a key replaces an
      earlier one and no iteration order is recorded. */
  datatype JsonValue =
    | Null
    | Bool(b: bool)
    | Number(n: int)
    | String(s: string)
    | Array(elems: seq<JsonValue>)
    | Object(members: map<string, JsonValue>)

  /** The four error kinds; only ConsumeInputNotFinished carries data (the
      cursor at which unconsumed input was found). The message strings of
      the other three are not modelled. */
  datatype ParserError =
    | ConsumeInputNotFinished(position: nat)
    | ParseHelperFailed
    | ParseError
    | InvalidJson

  datatype Result<T> = Ok(value: T) | Err(error: ParserError)

  /** Space, tab, line feed and carriage return: all at or below the space
      character, so none of them can start a value. */
  function IsWhitespace(c: char): (b: bool)
    ensures b ==> c <= ' '
  {
    c == '\t' || c == '\n' || c == '\r' || c == ' '
  }
}

/** The dispatch table of `parse_helper` (src/parser.rs:27-36, 48-84). Kept
    apart from JsonTypes because its constructors share names with JsonValue's. */
module JsonDispatch {

  /** The grammar rule chosen from one lookahead character. */
  datatype ParseType = Null | Boolean | Number | String | Array | Object | Unknown

  /** The characters that may start a number: a minus sign or a decimal digit. */
  function IsNumericChar(c: char): (b: bool)
    ensures b <==> c == '-' || '0' <= c <= '9'
  {
    c == '-' || c == '0' || c == '1' || c == '2' || c == '3' || c == '4'
    || c == '5' || c == '6' || c == '7' || c == '8' || c == '9'
  }

  /** The dispatch table of `parse_helper`, tried in the source's order. No
      closing bracket or separator starts a value, which is why `[ ]` fails
      once its `]` is read as a value. */
  function DetermineParseType(c: char): (t: ParseType)
    ensures c == ']' || c == '}' || c == ',' || c == ':' ==> t == ParseType.Unknown
  {
    if c == '{' then ParseType.Object
    else if c == '[' then ParseType.Array
    else if IsNumericChar(c) then ParseType.Number
    else if c == '"' then ParseType.String
    else if c == 't' || c == 'f' then ParseType.Boolean
    else if c == 'n' then ParseType.Null
    else ParseType.Unknown
  }

  /** The character classes of the table are disjoint, so the order of the
      tests does not matter: each rule is chosen exactly when its class
      contains the character, and every other character is Unknown. */
  lemma DispatchTable(c: char)
    ensures DetermineParseType(c) == ParseType.Object <==> c == '{'
    ensures DetermineParseType(c) == ParseType.Array <==> c == '['
    ensures DetermineParseType(c) == ParseType.Number <==> c == '-' || '0' <= c <= '9'
    ensures DetermineParseType(c) == ParseType.String <==> c == '"'
    ensures DetermineParseType(c) == ParseType.Boolean <==> c == 't' || c == 'f'
    ensures DetermineParseType(c) == ParseType.Null <==> c == 'n'
    ensures DetermineParseType(c) == ParseType.Unknown <==> c !in "{[-0123456789\"tfn"
  {
  }
}
