/** The unit tests of src/parser.rs:260-352, and a few documents that show
    where the parser departs from JSON, as lemmas about Parse. Each is
    proved by chaining the evaluation rules below over the cursor
    positions of its text. */
module JsonExamples {
  import opened JsonTypes
  import opened JsonGrammar
  import opened JsonProperties

  // ---------------------------------------------------------------------
  // Evaluation rules: one grammar step each, over any text.

  /** A string value: the quoted body at j, after whitespace from i. */
  lemma ValueIsString(s: seq<char>, i: nat, j: nat, body: string)
    requires i <= |s| && j == SkipWs(s, i)
    requires j + |body| + 2 <= |s| && s[j] == '"' && s[j + 1..j + 1 + |body|] == body
    requires '"' !in body && s[j + 1 + |body|] == '"'
    ensures ValueAt(s, i) == Parsed(Ok(String(body)), j + |body| + 2)
  {
    StringIsVerbatim(s, j, body);
  }

  /** A number value: the run of counted digits from j to k, the first of
      them an ASCII digit. */
  lemma ValueIsNumber(s: seq<char>, i: nat, j: nat, k: nat)
    requires i <= |s| && j == SkipWs(s, i) && j < k <= |s| && '1' <= s[j] <= '9'
    requires forall n :: j <= n < k ==> IsCountedDigit(s[n])
    requires k == |s| || !IsCountedDigit(s[k])
    ensures ValueAt(s, i) == Parsed(Ok(Number(DecimalValue(s[j..k]))), k)
  {
    NumberIsDigitRun(s, j, k);
  }

  /** The literal `null` at j. */
  lemma ValueIsNull(s: seq<char>, i: nat, j: nat)
    requires i <= |s| && j == SkipWs(s, i) && j + 4 <= |s| && s[j..j + 4] == "null"
    ensures ValueAt(s, i) == Parsed(Ok(Null), j + 4)
  {
  }

  /** The literal `false` at j. */
  lemma ValueIsFalse(s: seq<char>, i: nat, j: nat)
    requires i <= |s| && j == SkipWs(s, i) && j + 5 <= |s| && s[j..j + 5] == "false"
    ensures ValueAt(s, i) == Parsed(Ok(Bool(false)), j + 5)
  {
    assert s[j..j + 4] != "true" by {
      assert s[j..j + 5][0] == 'f';
    }
  }

  /** An object value: the `{` at j and the loop of its members. */
  lemma ValueIsObject(s: seq<char>, i: nat, j: nat)
    requires i <= |s| && j == SkipWs(s, i) && j < |s| && s[j] == '{'
    ensures ValueAt(s, i) == MembersFrom(s, j + 1, map[])
  {
  }

  /** An array value: the `[` at j and the loop of its elements. */
  lemma ValueIsArray(s: seq<char>, i: nat, j: nat)
    requires i <= |s| && j == SkipWs(s, i) && j < |s| && s[j] == '['
    ensures ValueAt(s, i) == ElementsFrom(s, j + 1, [])
  {
  }

  /** A pair: the key's quote at a, `:` at b, the value from v. */
  lemma MemberReads(s: seq<char>, i: nat, a: nat, key: string, b: nat, v: nat, value: JsonValue, e: nat)
    requires i <= |s| && a == SkipWs(s, i) && a < |s| && s[a] == '"'
    requires StringAt(s, a) == Parsed(Ok(key), a + |key| + 2)
    requires b == SkipWs(s, a + |key| + 2) && b < |s| && s[b] == ':'
    requires v == SkipWs(s, b + 1) && ValueAt(s, v) == Parsed(Ok(value), e)
    ensures MemberAt(s, i) == Parsed(Ok((key, value)), e)
  {
    SkipWsIdempotent(s, i);
  }

  /** A `,` at c after a pair, with the next pass starting at d. */
  lemma CommaContinues(s: seq<char>, e: nat, c: nat, d: nat)
    requires e <= |s| && c == SkipWs(s, e) && c < |s| && s[c] == ','
    requires d == SkipWs(s, c + 1) && d < |s| && s[d] != '}'
    ensures SeparatorAt(s, e) == Parsed(Ok(false), d)
  {
  }

  /** A `}` at c after a pair. */
  lemma BraceCloses(s: seq<char>, e: nat, c: nat)
    requires e <= |s| && c == SkipWs(s, e) && c < |s| && s[c] == '}'
    ensures SeparatorAt(s, e) == Parsed(Ok(true), c)
  {
  }

  /** A pass of the object loop that stores its pair and continues at d. */
  lemma MembersContinue(s: seq<char>, i: nat, m: map<string, JsonValue>, key: string, value: JsonValue, e: nat, d: nat)
    requires i <= |s| && MemberAt(s, i) == Parsed(Ok((key, value)), e)
    requires SeparatorAt(s, e) == Parsed(Ok(false), d)
    ensures MembersFrom(s, i, m) == MembersFrom(s, d, m[key := value])
  {
  }

  /** The last pass of the object loop, closed by the `}` at c. */
  lemma MembersClose(s: seq<char>, i: nat, m: map<string, JsonValue>, key: string, value: JsonValue, e: nat, c: nat)
    requires i <= |s| && MemberAt(s, i) == Parsed(Ok((key, value)), e)
    requires SeparatorAt(s, e) == Parsed(Ok(true), c)
    ensures MembersFrom(s, i, m) == Parsed(Ok(Object(m[key := value])), c + 1)
  {
  }

  /** An object of one pair, from its `{` at j to its `}` at c. */
  lemma SinglePairObject(s: seq<char>, i: nat, j: nat, key: string, value: JsonValue, e: nat, c: nat)
    requires i <= |s| && j == SkipWs(s, i) && j < |s| && s[j] == '{'
    requires MemberAt(s, j + 1) == Parsed(Ok((key, value)), e)
    requires c == SkipWs(s, e) && c < |s| && s[c] == '}'
    ensures ValueAt(s, i) == Parsed(Ok(Object(map[key := value])), c + 1)
  {
    ValueIsObject(s, i, j);
    BraceCloses(s, e, c);
    MembersClose(s, j + 1, map[], key, value, e, c);
  }

  /** A pass of the array loop: an element from i to e, then a `,` at c. */
  lemma ElementThenComma(s: seq<char>, i: nat, acc: seq<JsonValue>, x: JsonValue, e: nat, c: nat)
    requires i < |s| && s[i] != ']'
    requires ValueAt(s, SkipWs(s, i)) == Parsed(Ok(x), e)
    requires c == SkipWs(s, e) && c < |s| && s[c] == ','
    ensures ElementsFrom(s, i, acc) == ElementsFrom(s, c + 1, acc + [x])
  {
  }

  /** The last pass of the array loop: an element from i to e, then the
      `]` at c. */
  lemma ElementThenBracket(s: seq<char>, i: nat, acc: seq<JsonValue>, x: JsonValue, e: nat, c: nat)
    requires i < |s| && s[i] != ']'
    requires ValueAt(s, SkipWs(s, i)) == Parsed(Ok(x), e)
    requires c == SkipWs(s, e) && c < |s| && s[c] == ']'
    ensures ElementsFrom(s, i, acc) == Parsed(Ok(Array(acc + [x])), c + 1)
  {
    assert ElementsFrom(s, i, acc) == ElementsFrom(s, c, acc + [x]);
  }

  /** The value of a single counted digit. */
  lemma OneDigit(ds: seq<char>)
    requires |ds| == 1 && IsCountedDigit(ds[0])
    ensures DecimalValue(ds) == DigitValue(ds[0])
  {
    assert ds[..0] == [];
  }

  /** The value of a run of three counted digits. */
  lemma ThreeDigits(ds: seq<char>)
    requires |ds| == 3 && IsCountedDigit(ds[0]) && IsCountedDigit(ds[1]) && IsCountedDigit(ds[2])
    ensures DecimalValue(ds) == 100 * DigitValue(ds[0]) + 10 * DigitValue(ds[1]) + DigitValue(ds[2])
  {
    var two, one := ds[..2], ds[..1];
    assert two[..1] == one && one[..0] == [];
    assert DecimalValue(one) == DigitValue(ds[0]);
    assert DecimalValue(two) == DecimalValue(one) * 10 + DigitValue(ds[1]);
    assert DecimalValue(ds) == DecimalValue(two) * 10 + DigitValue(ds[2]);
  }

  /** A whole document: a value (or an error) read from the start, then
      only whitespace up to the end. */
  lemma WholeDocument(s: seq<char>, r: Result<JsonValue>, e: nat)
    requires ValueAt(s, 0) == Parsed(r, e) && SkipWs(s, e) == |s|
    ensures Parse(s) == r
  {
  }

  /** A document whose value, or whose error, leaves text other than
      whitespace at j: whatever the value gave, the position j is reported. */
  lemma TrailingText(s: seq<char>, e: nat, j: nat)
    requires ValueAt(s, 0).cursor == e && j == SkipWs(s, e) && j < |s|
    ensures Parse(s) == Err(ConsumeInputNotFinished(j))
  {
  }


  // ---------------------------------------------------------------------
  // The unit tests of src/parser.rs:260-352. Each test is a lemma over
  // any text made of the test's characters, stated position by position.

  /** The first pair, `"foo": 123`, and the `,` after it. */
  lemma NumbersFirstPair(s: seq<char>, m: map<string, JsonValue>)
    requires |s| == 31
    requires s[1] == ' ' && s[2] == '"' && s[3] == 'f' && s[4] == 'o' && s[5] == 'o' && s[6] == '"'
    requires s[7] == ':' && s[8] == ' ' && s[9] == '1' && s[10] == '2' && s[11] == '3' && s[12] == ' '
    requires s[13] == '\n' && s[14] == ',' && s[15] == ' ' && s[16] == '"'
    ensures MembersFrom(s, 1, m) == MembersFrom(s, 16, m["foo" := Number(123)])
  {
    assert SkipWs(s, 2) == 2;
    assert SkipWs(s, 1) == 2;
    assert s[3..6] == "foo";
    StringIsVerbatim(s, 2, "foo");
    assert SkipWs(s, 7) == 7;
    assert SkipWs(s, 9) == 9;
    assert SkipWs(s, 8) == 9;
    ThreeDigits(s[9..12]);
    ValueIsNumber(s, 9, 9, 12);
    MemberReads(s, 1, 2, "foo", 7, 9, Number(123), 12);
    assert SkipWs(s, 14) == 14;
    assert SkipWs(s, 12) == 14;
    assert SkipWs(s, 16) == 16;
    assert SkipWs(s, 15) == 16;
    CommaContinues(s, 12, 14, 16);
    MembersContinue(s, 1, m, "foo", Number(123), 12, 16);
  }

  /** The last pair, `"bar": 456`, and the `}` after it. */
  lemma NumbersLastPair(s: seq<char>, m: map<string, JsonValue>)
    requires |s| == 31
    requires s[16] == '"' && s[17] == 'b' && s[18] == 'a' && s[19] == 'r' && s[20] == '"' && s[21] == ':'
    requires s[22] == ' ' && s[23] == ' ' && s[24] == ' ' && s[25] == ' ' && s[26] == '4' && s[27] == '5'
    requires s[28] == '6' && s[29] == ' ' && s[30] == '}'
    ensures MembersFrom(s, 16, m) == Parsed(Ok(Object(m["bar" := Number(456)])), 31)
  {
    assert SkipWs(s, 16) == 16;
    assert s[17..20] == "bar";
    StringIsVerbatim(s, 16, "bar");
    assert SkipWs(s, 21) == 21;
    assert SkipWs(s, 26) == 26;
    assert SkipWs(s, 24) == 26;
    assert SkipWs(s, 22) == 26;
    ThreeDigits(s[26..29]);
    ValueIsNumber(s, 26, 26, 29);
    MemberReads(s, 16, 16, "bar", 21, 26, Number(456), 29);
    assert SkipWs(s, 30) == 30;
    assert SkipWs(s, 29) == 30;
    BraceCloses(s, 29, 30);
    MembersClose(s, 16, m, "bar", Number(456), 29, 30);
  }

  /** `test_parse_json_obj_with_number`: two pairs with number values, with
      whitespace and a line break before the separator. The test's text:
      "{ \"foo\": 123 \n, \"bar\":    456 }" */
  lemma ObjectWithNumbers(s: seq<char>)
    requires |s| == 31
    requires s[0] == '{' && s[1] == ' ' && s[2] == '"' && s[3] == 'f' && s[4] == 'o' && s[5] == 'o'
    requires s[6] == '"' && s[7] == ':' && s[8] == ' ' && s[9] == '1' && s[10] == '2' && s[11] == '3'
    requires s[12] == ' ' && s[13] == '\n' && s[14] == ',' && s[15] == ' ' && s[16] == '"' && s[17] == 'b'
    requires s[18] == 'a' && s[19] == 'r' && s[20] == '"' && s[21] == ':' && s[22] == ' ' && s[23] == ' '
    requires s[24] == ' ' && s[25] == ' ' && s[26] == '4' && s[27] == '5' && s[28] == '6' && s[29] == ' '
    requires s[30] == '}'
    ensures Parse(s) == Ok(Object(map["foo" := Number(123), "bar" := Number(456)]))
  {
    var v := Object(map["foo" := Number(123), "bar" := Number(456)]);
    assert SkipWs(s, 0) == 0;
    ValueIsObject(s, 0, 0);
    NumbersFirstPair(s, map[]);
    NumbersLastPair(s, map["foo" := Number(123)]);
    assert ValueAt(s, 0) == Parsed(Ok(v), 31);
    assert SkipWs(s, 31) == 31;
    WholeDocument(s, Ok(v), 31);
  }

  /** `test_parse_json_obj_with_string`: one pair with a string value. The test's text:
      "{ \"foo\": \"abcde\" }" */
  lemma ObjectWithString(s: seq<char>)
    requires |s| == 18
    requires s[0] == '{' && s[1] == ' ' && s[2] == '"' && s[3] == 'f' && s[4] == 'o' && s[5] == 'o'
    requires s[6] == '"' && s[7] == ':' && s[8] == ' ' && s[9] == '"' && s[10] == 'a' && s[11] == 'b'
    requires s[12] == 'c' && s[13] == 'd' && s[14] == 'e' && s[15] == '"' && s[16] == ' ' && s[17] == '}'
    ensures Parse(s) == Ok(Object(map["foo" := String("abcde")]))
  {
    assert SkipWs(s, 2) == 2;
    assert SkipWs(s, 1) == 2;
    assert s[3..6] == "foo";
    StringIsVerbatim(s, 2, "foo");
    assert SkipWs(s, 7) == 7;
    assert SkipWs(s, 9) == 9;
    assert SkipWs(s, 8) == 9;
    assert s[10..15] == "abcde";
    ValueIsString(s, 9, 9, "abcde");
    MemberReads(s, 1, 2, "foo", 7, 9, String("abcde"), 16);
    assert SkipWs(s, 0) == 0;
    assert SkipWs(s, 17) == 17;
    assert SkipWs(s, 16) == 17;
    SinglePairObject(s, 0, 0, "foo", String("abcde"), 16, 17);
    assert SkipWs(s, 18) == 18;
    WholeDocument(s, Ok(Object(map["foo" := String("abcde")])), 18);
  }

  /** `test_parse_json_obj_with_bool`: one pair with the value `false`. The test's text:
      "{ \"foo\": false }" */
  lemma ObjectWithBool(s: seq<char>)
    requires |s| == 16
    requires s[0] == '{' && s[1] == ' ' && s[2] == '"' && s[3] == 'f' && s[4] == 'o' && s[5] == 'o'
    requires s[6] == '"' && s[7] == ':' && s[8] == ' ' && s[9] == 'f' && s[10] == 'a' && s[11] == 'l'
    requires s[12] == 's' && s[13] == 'e' && s[14] == ' ' && s[15] == '}'
    ensures Parse(s) == Ok(Object(map["foo" := Bool(false)]))
  {
    assert SkipWs(s, 2) == 2;
    assert SkipWs(s, 1) == 2;
    assert s[3..6] == "foo";
    StringIsVerbatim(s, 2, "foo");
    assert SkipWs(s, 7) == 7;
    assert SkipWs(s, 9) == 9;
    assert SkipWs(s, 8) == 9;
    assert s[9..14] == "false";
    ValueIsFalse(s, 9, 9);
    MemberReads(s, 1, 2, "foo", 7, 9, Bool(false), 14);
    assert SkipWs(s, 0) == 0;
    assert SkipWs(s, 15) == 15;
    assert SkipWs(s, 14) == 15;
    SinglePairObject(s, 0, 0, "foo", Bool(false), 14, 15);
    assert SkipWs(s, 16) == 16;
    WholeDocument(s, Ok(Object(map["foo" := Bool(false)])), 16);
  }

  /** `test_parse_json_obj_with_null`: one pair with the value `null`. The test's text:
      "{ \"foo\": null }" */
  lemma ObjectWithNull(s: seq<char>)
    requires |s| == 15
    requires s[0] == '{' && s[1] == ' ' && s[2] == '"' && s[3] == 'f' && s[4] == 'o' && s[5] == 'o'
    requires s[6] == '"' && s[7] == ':' && s[8] == ' ' && s[9] == 'n' && s[10] == 'u' && s[11] == 'l'
    requires s[12] == 'l' && s[13] == ' ' && s[14] == '}'
    ensures Parse(s) == Ok(Object(map["foo" := Null]))
  {
    assert SkipWs(s, 2) == 2;
    assert SkipWs(s, 1) == 2;
    assert s[3..6] == "foo";
    StringIsVerbatim(s, 2, "foo");
    assert SkipWs(s, 7) == 7;
    assert SkipWs(s, 9) == 9;
    assert SkipWs(s, 8) == 9;
    assert s[9..13] == "null";
    ValueIsNull(s, 9, 9);
    MemberReads(s, 1, 2, "foo", 7, 9, Null, 13);
    assert SkipWs(s, 0) == 0;
    assert SkipWs(s, 14) == 14;
    assert SkipWs(s, 13) == 14;
    SinglePairObject(s, 0, 0, "foo", Null, 13, 14);
    assert SkipWs(s, 15) == 15;
    WholeDocument(s, Ok(Object(map["foo" := Null])), 15);
  }

  /** The first element: an object with a `null` value. */
  lemma ArrayFirst(s: seq<char>, acc: seq<JsonValue>)
    requires |s| == 101
    requires s[2] == '\n' && s[3] == ' ' && s[4] == ' ' && s[5] == '\t' && s[6] == '{' && s[7] == '\n'
    requires s[8] == '\t' && s[9] == '\t' && s[10] == '"' && s[11] == 'f' && s[12] == 'o' && s[13] == 'o'
    requires s[14] == '"' && s[15] == ':' && s[16] == ' ' && s[17] == 'n' && s[18] == 'u' && s[19] == 'l'
    requires s[20] == 'l' && s[21] == '\n' && s[22] == '\t' && s[23] == '}' && s[24] == ','
    ensures ElementsFrom(s, 2, acc) == ElementsFrom(s, 25, acc + [Object(map["foo" := Null])])
  {
    assert SkipWs(s, 6) == 6;
    assert SkipWs(s, 4) == 6;
    assert SkipWs(s, 2) == 6;
    assert SkipWs(s, 10) == 10;
    assert SkipWs(s, 8) == 10;
    assert SkipWs(s, 7) == 10;
    assert s[11..14] == "foo";
    StringIsVerbatim(s, 10, "foo");
    assert SkipWs(s, 15) == 15;
    assert SkipWs(s, 17) == 17;
    assert SkipWs(s, 16) == 17;
    assert s[17..21] == "null";
    ValueIsNull(s, 17, 17);
    MemberReads(s, 7, 10, "foo", 15, 17, Null, 21);
    assert SkipWs(s, 23) == 23;
    assert SkipWs(s, 21) == 23;
    SinglePairObject(s, 6, 6, "foo", Null, 21, 23);
    assert SkipWs(s, 24) == 24;
    ElementThenComma(s, 2, acc, Object(map["foo" := Null]), 24, 24);
  }

  /** The second element: an object with a number value. */
  lemma ArraySecond(s: seq<char>, acc: seq<JsonValue>)
    requires |s| == 101
    requires s[25] == '\n' && s[26] == '\t' && s[27] == '{' && s[28] == '\n' && s[29] == '\t' && s[30] == '\t'
    requires s[31] == '"' && s[32] == 'b' && s[33] == 'a' && s[34] == 'r' && s[35] == '"' && s[36] == ':'
    requires s[37] == ' ' && s[38] == '1' && s[39] == '2' && s[40] == '3' && s[41] == '\n' && s[42] == '\t'
    requires s[43] == '}' && s[44] == ','
    ensures ElementsFrom(s, 25, acc) == ElementsFrom(s, 45, acc + [Object(map["bar" := Number(123)])])
  {
    assert SkipWs(s, 27) == 27;
    assert SkipWs(s, 25) == 27;
    assert SkipWs(s, 31) == 31;
    assert SkipWs(s, 29) == 31;
    assert SkipWs(s, 28) == 31;
    assert s[32..35] == "bar";
    StringIsVerbatim(s, 31, "bar");
    assert SkipWs(s, 36) == 36;
    assert SkipWs(s, 38) == 38;
    assert SkipWs(s, 37) == 38;
    ThreeDigits(s[38..41]);
    ValueIsNumber(s, 38, 38, 41);
    MemberReads(s, 28, 31, "bar", 36, 38, Number(123), 41);
    assert SkipWs(s, 43) == 43;
    assert SkipWs(s, 41) == 43;
    SinglePairObject(s, 27, 27, "bar", Number(123), 41, 43);
    assert SkipWs(s, 44) == 44;
    ElementThenComma(s, 25, acc, Object(map["bar" := Number(123)]), 44, 44);
  }

  /** The third element: an object with a string value. */
  lemma ArrayThird(s: seq<char>, acc: seq<JsonValue>)
    requires |s| == 101
    requires s[45] == '\n' && s[46] == '\t' && s[47] == '{' && s[48] == '\n' && s[49] == '\t' && s[50] == '\t'
    requires s[51] == '"' && s[52] == 'b' && s[53] == 'a' && s[54] == 'z' && s[55] == '"' && s[56] == ':'
    requires s[57] == ' ' && s[58] == '"' && s[59] == 'a' && s[60] == 'b' && s[61] == 'c' && s[62] == 'd'
    requires s[63] == 'e' && s[64] == '"' && s[65] == '\n' && s[66] == '\t' && s[67] == '}' && s[68] == ','
    ensures ElementsFrom(s, 45, acc) == ElementsFrom(s, 69, acc + [Object(map["baz" := String("abcde")])])
  {
    assert SkipWs(s, 47) == 47;
    assert SkipWs(s, 45) == 47;
    assert SkipWs(s, 51) == 51;
    assert SkipWs(s, 49) == 51;
    assert SkipWs(s, 48) == 51;
    assert s[52..55] == "baz";
    StringIsVerbatim(s, 51, "baz");
    assert SkipWs(s, 56) == 56;
    assert SkipWs(s, 58) == 58;
    assert SkipWs(s, 57) == 58;
    assert s[59..64] == "abcde";
    ValueIsString(s, 58, 58, "abcde");
    MemberReads(s, 48, 51, "baz", 56, 58, String("abcde"), 65);
    assert SkipWs(s, 67) == 67;
    assert SkipWs(s, 65) == 67;
    SinglePairObject(s, 47, 47, "baz", String("abcde"), 65, 67);
    assert SkipWs(s, 68) == 68;
    ElementThenComma(s, 45, acc, Object(map["baz" := String("abcde")]), 68, 68);
  }

  /** The fourth element: a number. */
  lemma ArrayFourth(s: seq<char>, acc: seq<JsonValue>)
    requires |s| == 101
    requires s[69] == '\n' && s[70] == '\t' && s[71] == '3' && s[72] == '4' && s[73] == '5' && s[74] == ','
    ensures ElementsFrom(s, 69, acc) == ElementsFrom(s, 75, acc + [Number(345)])
  {
    assert SkipWs(s, 71) == 71;
    assert SkipWs(s, 69) == 71;
    ThreeDigits(s[71..74]);
    ValueIsNumber(s, 71, 71, 74);
    assert SkipWs(s, 74) == 74;
    ElementThenComma(s, 69, acc, Number(345), 74, 74);
  }

  /** The fifth element: a string. */
  lemma ArrayFifth(s: seq<char>, acc: seq<JsonValue>)
    requires |s| == 101
    requires s[75] == '\n' && s[76] == '\t' && s[77] == '"' && s[78] == 'e' && s[79] == 'f' && s[80] == 'g'
    requires s[81] == 'h' && s[82] == '"' && s[83] == ','
    ensures ElementsFrom(s, 75, acc) == ElementsFrom(s, 84, acc + [String("efgh")])
  {
    assert SkipWs(s, 77) == 77;
    assert SkipWs(s, 75) == 77;
    assert s[78..82] == "efgh";
    ValueIsString(s, 77, 77, "efgh");
    assert SkipWs(s, 83) == 83;
    ElementThenComma(s, 75, acc, String("efgh"), 83, 83);
  }

  /** The sixth element: `null`. */
  lemma ArraySixth(s: seq<char>, acc: seq<JsonValue>)
    requires |s| == 101
    requires s[84] == '\n' && s[85] == '\t' && s[86] == 'n' && s[87] == 'u' && s[88] == 'l' && s[89] == 'l'
    requires s[90] == ','
    ensures ElementsFrom(s, 84, acc) == ElementsFrom(s, 91, acc + [Null])
  {
    assert SkipWs(s, 86) == 86;
    assert SkipWs(s, 84) == 86;
    assert s[86..90] == "null";
    ValueIsNull(s, 86, 86);
    assert SkipWs(s, 90) == 90;
    ElementThenComma(s, 84, acc, Null, 90, 90);
  }

  /** The last element: `false`, closed by the `]`. */
  lemma ArraySeventh(s: seq<char>, acc: seq<JsonValue>)
    requires |s| == 101
    requires s[91] == '\n' && s[92] == '\t' && s[93] == 'f' && s[94] == 'a' && s[95] == 'l' && s[96] == 's'
    requires s[97] == 'e' && s[98] == '\n' && s[99] == ']' && s[100] == '\n'
    ensures ElementsFrom(s, 91, acc) == Parsed(Ok(Array(acc + [Bool(false)])), 100)
  {
    assert SkipWs(s, 93) == 93;
    assert SkipWs(s, 91) == 93;
    assert s[93..98] == "false";
    ValueIsFalse(s, 93, 93);
    assert SkipWs(s, 99) == 99;
    assert SkipWs(s, 98) == 99;
    ElementThenBracket(s, 91, acc, Bool(false), 98, 99);
  }

  /** The three objects at the head of the array. */
  lemma ArrayHead(s: seq<char>, acc: seq<JsonValue>)
    requires |s| == 101
    requires s[2] == '\n' && s[3] == ' ' && s[4] == ' ' && s[5] == '\t' && s[6] == '{' && s[7] == '\n'
    requires s[8] == '\t' && s[9] == '\t' && s[10] == '"' && s[11] == 'f' && s[12] == 'o' && s[13] == 'o'
    requires s[14] == '"' && s[15] == ':' && s[16] == ' ' && s[17] == 'n' && s[18] == 'u' && s[19] == 'l'
    requires s[20] == 'l' && s[21] == '\n' && s[22] == '\t' && s[23] == '}' && s[24] == ',' && s[25] == '\n'
    requires s[26] == '\t' && s[27] == '{' && s[28] == '\n' && s[29] == '\t' && s[30] == '\t' && s[31] == '"'
    requires s[32] == 'b' && s[33] == 'a' && s[34] == 'r' && s[35] == '"' && s[36] == ':' && s[37] == ' '
    requires s[38] == '1' && s[39] == '2' && s[40] == '3' && s[41] == '\n' && s[42] == '\t' && s[43] == '}'
    requires s[44] == ',' && s[45] == '\n' && s[46] == '\t' && s[47] == '{' && s[48] == '\n' && s[49] == '\t'
    requires s[50] == '\t' && s[51] == '"' && s[52] == 'b' && s[53] == 'a' && s[54] == 'z' && s[55] == '"'
    requires s[56] == ':' && s[57] == ' ' && s[58] == '"' && s[59] == 'a' && s[60] == 'b' && s[61] == 'c'
    requires s[62] == 'd' && s[63] == 'e' && s[64] == '"' && s[65] == '\n' && s[66] == '\t' && s[67] == '}'
    requires s[68] == ','
    ensures ElementsFrom(s, 2, acc) == ElementsFrom(s, 69, acc + [Object(map["foo" := Null]), Object(map["bar" := Number(123)]), Object(map["baz" := String("abcde")])])
  {
    ArrayFirst(s, acc);
    ArraySecond(s, acc + [Object(map["foo" := Null])]);
    assert acc + [Object(map["foo" := Null])] + [Object(map["bar" := Number(123)])] == acc + [Object(map["foo" := Null]), Object(map["bar" := Number(123)])];
    ArrayThird(s, acc + [Object(map["foo" := Null]), Object(map["bar" := Number(123)])]);
    assert acc + [Object(map["foo" := Null]), Object(map["bar" := Number(123)])] + [Object(map["baz" := String("abcde")])] == acc + [Object(map["foo" := Null]), Object(map["bar" := Number(123)]), Object(map["baz" := String("abcde")])];
  }

  /** The four plain values at the tail of the array, and its `]`. */
  lemma ArrayTail(s: seq<char>, acc: seq<JsonValue>)
    requires |s| == 101
    requires s[69] == '\n' && s[70] == '\t' && s[71] == '3' && s[72] == '4' && s[73] == '5' && s[74] == ','
    requires s[75] == '\n' && s[76] == '\t' && s[77] == '"' && s[78] == 'e' && s[79] == 'f' && s[80] == 'g'
    requires s[81] == 'h' && s[82] == '"' && s[83] == ',' && s[84] == '\n' && s[85] == '\t' && s[86] == 'n'
    requires s[87] == 'u' && s[88] == 'l' && s[89] == 'l' && s[90] == ',' && s[91] == '\n' && s[92] == '\t'
    requires s[93] == 'f' && s[94] == 'a' && s[95] == 'l' && s[96] == 's' && s[97] == 'e' && s[98] == '\n'
    requires s[99] == ']' && s[100] == '\n'
    ensures ElementsFrom(s, 69, acc) == Parsed(Ok(Array(acc + [Number(345), String("efgh"), Null, Bool(false)])), 100)
  {
    ArrayFourth(s, acc);
    ArrayFifth(s, acc + [Number(345)]);
    assert acc + [Number(345)] + [String("efgh")] == acc + [Number(345), String("efgh")];
    ArraySixth(s, acc + [Number(345), String("efgh")]);
    assert acc + [Number(345), String("efgh")] + [Null] == acc + [Number(345), String("efgh"), Null];
    ArraySeventh(s, acc + [Number(345), String("efgh"), Null]);
    assert acc + [Number(345), String("efgh"), Null] + [Bool(false)] == acc + [Number(345), String("efgh"), Null, Bool(false)];
  }

  /** `test_parse_json_obj_with_array`: seven elements of every kind
      over sixteen lines, three of them objects. The test's text:
      "\n[\n  \t{\n\t\t\"foo\": null\n\t},\n\t{\n\t\t\"bar\": 123\n\t},\n\t{\n\t\t\"baz\": \"abcde\"\n\t},\n\t345,\n\t\"efgh\",\n\tnull,\n\tfalse\n]\n" */
  lemma ObjectsInArray(s: seq<char>)
    requires |s| == 101
    requires s[0] == '\n' && s[1] == '[' && s[2] == '\n' && s[3] == ' ' && s[4] == ' ' && s[5] == '\t'
    requires s[6] == '{' && s[7] == '\n' && s[8] == '\t' && s[9] == '\t' && s[10] == '"' && s[11] == 'f'
    requires s[12] == 'o' && s[13] == 'o' && s[14] == '"' && s[15] == ':' && s[16] == ' ' && s[17] == 'n'
    requires s[18] == 'u' && s[19] == 'l' && s[20] == 'l' && s[21] == '\n' && s[22] == '\t' && s[23] == '}'
    requires s[24] == ',' && s[25] == '\n' && s[26] == '\t' && s[27] == '{' && s[28] == '\n' && s[29] == '\t'
    requires s[30] == '\t' && s[31] == '"' && s[32] == 'b' && s[33] == 'a' && s[34] == 'r' && s[35] == '"'
    requires s[36] == ':' && s[37] == ' ' && s[38] == '1' && s[39] == '2' && s[40] == '3' && s[41] == '\n'
    requires s[42] == '\t' && s[43] == '}' && s[44] == ',' && s[45] == '\n' && s[46] == '\t' && s[47] == '{'
    requires s[48] == '\n' && s[49] == '\t' && s[50] == '\t' && s[51] == '"' && s[52] == 'b' && s[53] == 'a'
    requires s[54] == 'z' && s[55] == '"' && s[56] == ':' && s[57] == ' ' && s[58] == '"' && s[59] == 'a'
    requires s[60] == 'b' && s[61] == 'c' && s[62] == 'd' && s[63] == 'e' && s[64] == '"' && s[65] == '\n'
    requires s[66] == '\t' && s[67] == '}' && s[68] == ',' && s[69] == '\n' && s[70] == '\t' && s[71] == '3'
    requires s[72] == '4' && s[73] == '5' && s[74] == ',' && s[75] == '\n' && s[76] == '\t' && s[77] == '"'
    requires s[78] == 'e' && s[79] == 'f' && s[80] == 'g' && s[81] == 'h' && s[82] == '"' && s[83] == ','
    requires s[84] == '\n' && s[85] == '\t' && s[86] == 'n' && s[87] == 'u' && s[88] == 'l' && s[89] == 'l'
    requires s[90] == ',' && s[91] == '\n' && s[92] == '\t' && s[93] == 'f' && s[94] == 'a' && s[95] == 'l'
    requires s[96] == 's' && s[97] == 'e' && s[98] == '\n' && s[99] == ']' && s[100] == '\n'
    ensures Parse(s) == Ok(Array([Object(map["foo" := Null]), Object(map["bar" := Number(123)]), Object(map["baz" := String("abcde")]), Number(345), String("efgh"), Null, Bool(false)]))
  {
    assert SkipWs(s, 1) == 1;
    assert SkipWs(s, 0) == 1;
    ValueIsArray(s, 0, 1);
    ArrayHead(s, []);
    assert [] + [Object(map["foo" := Null]), Object(map["bar" := Number(123)]), Object(map["baz" := String("abcde")])] == [Object(map["foo" := Null]), Object(map["bar" := Number(123)]), Object(map["baz" := String("abcde")])];
    ArrayTail(s, [Object(map["foo" := Null]), Object(map["bar" := Number(123)]), Object(map["baz" := String("abcde")])]);
    assert [Object(map["foo" := Null]), Object(map["bar" := Number(123)]), Object(map["baz" := String("abcde")])] + [Number(345), String("efgh"), Null, Bool(false)] == [Object(map["foo" := Null]), Object(map["bar" := Number(123)]), Object(map["baz" := String("abcde")]), Number(345), String("efgh"), Null, Bool(false)];
    assert SkipWs(s, 101) == 101;
    assert SkipWs(s, 100) == 101;
    WholeDocument(s, Ok(Array([Object(map["foo" := Null]), Object(map["bar" := Number(123)]), Object(map["baz" := String("abcde")]), Number(345), String("efgh"), Null, Bool(false)])), 100);
  }

  // ---------------------------------------------------------------------
  // Documents where the parser departs from JSON

  /** `{}` is rejected: the member loop looks for a key first, finds the
      `}` and fails with InvalidJson, and the top level then reports the
      unread `}` instead. */
  lemma EmptyObjectText(s: seq<char>)
    requires |s| == 2 && s[0] == '{' && s[1] == '}'
    ensures ValueAt(s, 0) == Parsed(Err(InvalidJson), 1)
    ensures Parse(s) == Err(ConsumeInputNotFinished(1))
  {
    assert SkipWs(s, 1) == 1;
    EmptyObjectRejected(s, 0);
    TrailingText(s, 1, 1);
  }

  /** `[]` is an empty array. */
  lemma EmptyArrayText(s: seq<char>)
    requires |s| == 2 && s[0] == '[' && s[1] == ']'
    ensures Parse(s) == Ok(Array([]))
  {
    ValueIsArray(s, 0, 0);
    assert SkipWs(s, 2) == 2;
    WholeDocument(s, Ok(Array([])), 2);
  }

  /** `[ ]`: only a `]` right after the `[` closes an empty array, so the
      `]` after the space is read as a value of no known kind. In the
      source this panics at the `unwrap` of line 204; the model returns the
      nested ParseHelperFailed, and the top then reports
      ConsumeInputNotFinished(2). */
  lemma SpacedEmptyArrayText(s: seq<char>)
    requires |s| == 3 && s[0] == '[' && s[1] == ' ' && s[2] == ']'
    ensures ValueAt(s, 0) == Parsed(Err(ParseHelperFailed), 2)
    ensures Parse(s) == Err(ConsumeInputNotFinished(2))
  {
    ValueIsArray(s, 0, 0);
    assert SkipWs(s, 2) == 2;
    assert SkipWs(s, 1) == 2;
    ArrayElementErrors(s, 1, []);
    TrailingText(s, 2, 2);
  }

  /** `[1,]` is accepted: a `]` right after the comma closes the array. */
  lemma TrailingCommaArrayText(s: seq<char>)
    requires |s| == 4 && s[0] == '[' && s[1] == '1' && s[2] == ',' && s[3] == ']'
    ensures Parse(s) == Ok(Array([Number(1)]))
  {
    ValueIsArray(s, 0, 0);
    OneDigit(s[1..2]);
    assert SkipWs(s, 1) == 1;
    ValueIsNumber(s, 1, 1, 2);
    assert SkipWs(s, 2) == 2;
    ElementThenComma(s, 1, [], Number(1), 2, 2);
    assert [] + [Number(1)] == [Number(1)];
    assert SkipWs(s, 4) == 4;
    WholeDocument(s, Ok(Array([Number(1)])), 4);
  }

  /** `10` is not ten: `0` ends the run of digits, so the value is 1 and
      the `0` is reported as unread. */
  lemma TenText(s: seq<char>)
    requires |s| == 2 && s[0] == '1' && s[1] == '0'
    ensures ValueAt(s, 0) == Parsed(Ok(Number(1)), 1)
    ensures Parse(s) == Err(ConsumeInputNotFinished(1))
  {
    OneDigit(s[0..1]);
    assert SkipWs(s, 0) == 0;
    ValueIsNumber(s, 0, 0, 1);
    assert SkipWs(s, 1) == 1;
    TrailingText(s, 1, 1);
  }

  /** `-5` is not minus five: the sign starts a number of no digits,
      whose value is 0, and the `-` itself is reported as unread. */
  lemma NegativeText(s: seq<char>)
    requires |s| == 2 && s[0] == '-' && s[1] == '5'
    ensures ValueAt(s, 0) == Parsed(Ok(Number(0)), 0)
    ensures Parse(s) == Err(ConsumeInputNotFinished(0))
  {
    assert SkipWs(s, 0) == 0;
    NumberLeadingZeroOrSign(s, 0);
    TrailingText(s, 0, 0);
  }

  /** The first pair of `{"a":1,"a":2}` and the comma after it. */
  lemma FirstOfDuplicates(s: seq<char>, m: map<string, JsonValue>)
    requires |s| == 13
    requires s[1] == '"' && s[2] == 'a' && s[3] == '"' && s[4] == ':' && s[5] == '1' && s[6] == ','
    requires s[7] == '"'
    ensures MembersFrom(s, 1, m) == MembersFrom(s, 7, m["a" := Number(1)])
  {
    assert s[2..3] == "a";
    StringIsVerbatim(s, 1, "a");
    OneDigit(s[5..6]);
    assert SkipWs(s, 5) == 5;
    ValueIsNumber(s, 5, 5, 6);
    assert SkipWs(s, 1) == 1 && SkipWs(s, 4) == 4;
    MemberReads(s, 1, 1, "a", 4, 5, Number(1), 6);
    assert SkipWs(s, 6) == 6 && SkipWs(s, 7) == 7;
    CommaContinues(s, 6, 6, 7);
    MembersContinue(s, 1, m, "a", Number(1), 6, 7);
  }

  /** The second pair of `{"a":1,"a":2}` and the `}` after it. */
  lemma SecondOfDuplicates(s: seq<char>, m: map<string, JsonValue>)
    requires |s| == 13
    requires s[7] == '"' && s[8] == 'a' && s[9] == '"' && s[10] == ':' && s[11] == '2' && s[12] == '}'
    ensures MembersFrom(s, 7, m) == Parsed(Ok(Object(m["a" := Number(2)])), 13)
  {
    assert s[8..9] == "a";
    StringIsVerbatim(s, 7, "a");
    OneDigit(s[11..12]);
    assert SkipWs(s, 11) == 11;
    ValueIsNumber(s, 11, 11, 12);
    assert SkipWs(s, 7) == 7 && SkipWs(s, 10) == 10;
    MemberReads(s, 7, 7, "a", 10, 11, Number(2), 12);
    assert SkipWs(s, 12) == 12;
    BraceCloses(s, 12, 12);
    MembersClose(s, 7, m, "a", Number(2), 12, 12);
  }

  /** `{"a":1,"a":2}`: the later pair with a repeated key replaces the
      earlier one. */
  lemma DuplicateKeyText(s: seq<char>)
    requires |s| == 13
    requires s[0] == '{' && s[1] == '"' && s[2] == 'a' && s[3] == '"' && s[4] == ':' && s[5] == '1'
    requires s[6] == ',' && s[7] == '"' && s[8] == 'a' && s[9] == '"' && s[10] == ':' && s[11] == '2'
    requires s[12] == '}'
    ensures Parse(s) == Ok(Object(map["a" := Number(2)]))
  {
    FirstOfDuplicates(s, map[]);
    SecondOfDuplicates(s, map["a" := Number(1)]);
    assert map["a" := Number(1)]["a" := Number(2)] == map["a" := Number(2)];
    assert SkipWs(s, 0) == 0 && SkipWs(s, 13) == 13;
    ValueIsObject(s, 0, 0);
    WholeDocument(s, Ok(Object(map["a" := Number(2)])), 13);
  }

  /** `[1` is rejected with ParseError: after the element neither a `,`
      nor a `]` follows, and nothing is left unread. */
  lemma UnclosedArrayText(s: seq<char>)
    requires |s| == 2 && s[0] == '[' && s[1] == '1'
    ensures Parse(s) == Err(ParseError)
  {
    ValueIsArray(s, 0, 0);
    OneDigit(s[1..2]);
    assert SkipWs(s, 1) == 1;
    ValueIsNumber(s, 1, 1, 2);
    assert SkipWs(s, 2) == 2;
    assert ElementsFrom(s, 1, []) == Parsed(Err(ParseError), 2);
    WholeDocument(s, Err(ParseError), 2);
  }

  /** `"ab` with no closing quote is rejected with ParseError (where the
      source reads on for ever). */
  lemma UnterminatedStringText(s: seq<char>)
    requires |s| == 3 && s[0] == '"' && s[1] == 'a' && s[2] == 'b'
    ensures Parse(s) == Err(ParseError)
  {
    assert NextQuote(s, 3) == 3;
    assert NextQuote(s, 1) == 3;
    assert SkipWs(s, 0) == 0;
    assert StringAt(s, 0) == Parsed(Err(ParseError), 3);
    assert SkipWs(s, 3) == 3;
    WholeDocument(s, Err(ParseError), 3);
  }
}
