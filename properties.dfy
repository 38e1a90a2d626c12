/** Properties of the parser's behaviour, stated over the functions of
    JsonGrammar (which the JsonParser methods are proved to follow). */
module JsonProperties {
  import opened JsonTypes
  import opened JsonGrammar

  // ---------------------------------------------------------------------
  // Cursor primitives

  /** SkipWs stops exactly at the end of the whitespace run: j is its
      result if and only if everything from i up to j is whitespace and
      the character at j (if any) is not. */
  lemma {:induction false} SkipWsIsMaximalRun(s: seq<char>, i: nat, j: nat)
    requires i <= j <= |s|
    ensures SkipWs(s, i) == j <==>
      (forall k :: i <= k < j ==> IsWhitespace(s[k])) && (j == |s| || !IsWhitespace(s[j]))
    decreases j - i
  {
    SkippedAreWhitespace(s, i);
    if i < j && (forall k :: i <= k < j ==> IsWhitespace(s[k])) {
      assert IsWhitespace(s[i]);
      SkipWsIsMaximalRun(s, i + 1, j);
    }
  }

  /** Skipping whitespace twice moves the cursor no further than once. */
  lemma SkipWsIdempotent(s: seq<char>, i: nat)
    requires i <= |s|
    ensures SkipWs(s, SkipWs(s, i)) == SkipWs(s, i)
  {
  }

  /** NextQuote is the position of the first quote at or after i, or the
      end of the text when there is none. */
  lemma {:induction false} NextQuoteIsFirst(s: seq<char>, i: nat, q: nat)
    requires i <= q <= |s|
    ensures NextQuote(s, i) == q <==>
      (forall k :: i <= k < q ==> s[k] != '"') && (q == |s| || s[q] == '"')
    decreases q - i
  {
    NoQuoteBefore(s, i);
    if i < q && (forall k :: i <= k < q ==> s[k] != '"') {
      assert s[i] != '"';
      NextQuoteIsFirst(s, i + 1, q);
    }
  }

  // ---------------------------------------------------------------------
  // Strings

  /** A string is read verbatim: StringAt yields `body` exactly when an
      opening quote, the characters of `body` (none of them a quote) and a
      closing quote stand at i, and the cursor ends after the closing quote. */
  lemma StringIsVerbatim(s: seq<char>, i: nat, body: string)
    requires i <= |s|
    ensures StringAt(s, i).result == Ok(body) <==>
      i + |body| + 2 <= |s| && s[i] == '"' && s[i + 1..i + 1 + |body|] == body
      && '"' !in body && s[i + 1 + |body|] == '"'
    ensures StringAt(s, i).result == Ok(body) ==> StringAt(s, i).cursor == i + |body| + 2
  {
    var q := i + 1 + |body|;
    if StringAt(s, i).result == Ok(body) {
      NoQuoteBefore(s, i + 1);
      assert NextQuote(s, i + 1) == q;
      forall k | 0 <= k < |body|
        ensures body[k] != '"'
      {
        assert body[k] == s[i + 1 + k];
      }
    }
    if i + |body| + 2 <= |s| && s[i] == '"' && s[i + 1..q] == body && '"' !in body && s[q] == '"' {
      forall k | i + 1 <= k < q
        ensures s[k] != '"'
      {
        assert s[k] == body[k - i - 1];
      }
      NextQuoteIsFirst(s, i + 1, q);
    }
  }

  /** A string fails exactly when there is no opening quote at i (nothing
      is consumed) or no closing quote after it (the whole rest of the text
      is consumed); the error is always ParseError. */
  lemma StringErrors(s: seq<char>, i: nat)
    requires i <= |s|
    ensures StringAt(s, i).result.Err? <==> i == |s| || s[i] != '"' || '"' !in s[i + 1..]
    ensures StringAt(s, i).result.Err? ==> StringAt(s, i).result.error == ParseError
    ensures i == |s| || s[i] != '"' ==> StringAt(s, i) == Parsed(Err(ParseError), i)
    ensures i < |s| && s[i] == '"' && '"' !in s[i + 1..] ==> StringAt(s, i) == Parsed(Err(ParseError), |s|)
  {
    if i < |s| && s[i] == '"' {
      var q := NextQuote(s, i + 1);
      NoQuoteBefore(s, i + 1);
      if q < |s| {
        assert s[i + 1..][q - i - 1] == '"';
      } else {
        var rest := s[i + 1..];
        forall k | 0 <= k < |rest|
          ensures rest[k] != '"'
        {
          assert rest[k] == s[i + 1 + k];
        }
      }
    }
  }

  // ---------------------------------------------------------------------
  // Numbers

  function Pow10(n: nat): (p: nat)
    ensures p >= 1
  {
    if n == 0 then 1 else 10 * Pow10(n - 1)
  }

  /** The largest value of the source's 64-bit signed number type. */
  const MaxI64: int := 0x7FFF_FFFF_FFFF_FFFF

  /** A run of n counted digits has a value with exactly n decimal digits:
      at least 10^(n-1) (no digit is zero) and below 10^n. */
  lemma {:induction false} DecimalValueBounds(ds: seq<char>)
    requires forall k :: 0 <= k < |ds| ==> IsCountedDigit(ds[k])
    ensures DecimalValue(ds) < Pow10(|ds|)
    ensures ds != [] ==> Pow10(|ds| - 1) <= DecimalValue(ds)
  {
    if ds != [] {
      var init := ds[..|ds| - 1];
      DecimalValueBounds(init);
      assert DecimalValue(ds) == DecimalValue(init) * 10 + DigitValue(ds[|ds| - 1]);
    }
  }

  /** The source accumulates numbers in a signed 64-bit integer: a run of
      at most 18 digits always fits, a run of 20 or more never does. */
  lemma NumberFitsI64(ds: seq<char>)
    requires forall k :: 0 <= k < |ds| ==> IsCountedDigit(ds[k])
    ensures |ds| <= 18 ==> DecimalValue(ds) <= MaxI64
    ensures |ds| >= 20 ==> DecimalValue(ds) > MaxI64
  {
    DecimalValueBounds(ds);
    Pow10Values();
    if |ds| <= 18 {
      Pow10Monotone(|ds|, 18);
    }
    if |ds| >= 20 {
      Pow10Monotone(19, |ds| - 1);
    }
  }

  lemma Pow10Values()
    ensures Pow10(18) == 1_000_000_000_000_000_000
    ensures Pow10(19) == 10_000_000_000_000_000_000
  {
    assert Pow10(9) == 1_000_000_000;
    Pow10Add(9, 9);
  }

  lemma {:induction false} Pow10Add(m: nat, n: nat)
    ensures Pow10(m + n) == Pow10(m) * Pow10(n)
  {
    if n > 0 {
      Pow10Add(m, n - 1);
      assert Pow10(m + n) == 10 * Pow10(m + n - 1);
    }
  }

  lemma {:induction false} Pow10Monotone(m: nat, n: nat)
    requires m <= n
    ensures Pow10(m) <= Pow10(n)
    decreases n - m
  {
    if m < n {
      Pow10Monotone(m, n - 1);
    }
  }

  /** A number that starts with '0' or '-' reads as zero and consumes
      nothing, since neither is a counted digit. */
  lemma NumberLeadingZeroOrSign(s: seq<char>, i: nat)
    requires i < |s| && (s[i] == '0' || s[i] == '-')
    ensures NumberAt(s, i) == Parsed(Ok(Number(0)), i)
  {
  }

  /** On ASCII text the digit class is exactly '1' to '9', each worth its
      face value. */
  lemma AsciiDigitClass(c: char)
    requires c as int < 256
    ensures IsCountedDigit(c) <==> '1' <= c <= '9'
    ensures IsCountedDigit(c) ==> DigitValue(c) == c as int - '0' as int
  {
  }

  /** Beyond ASCII the cast to `u8` lets other characters in: U+0131,
      whose low byte is the code of '1', counts as the digit 1, so a '1'
      followed by it reads as eleven. */
  lemma WideCharCountsAsDigit(s: seq<char>)
    requires |s| == 2 && s[0] == '1' && s[1] == '\U{0131}'
    ensures NumberAt(s, 0) == Parsed(Ok(Number(11)), 2)
  {
    assert LowByte(s[1]) == '1' as int;
    NumberIsDigitRun(s, 0, 2);
    var ds := s[0..2];
    assert ds[..1][..0] == [];
    assert DecimalValue(ds[..1]) == 1;
    assert DecimalValue(ds) == DecimalValue(ds[..1]) * 10 + 1;
  }

  /** A number reads the whole run of counted digits and stops at the first
      other character, with the run's decimal value. */
  lemma NumberIsDigitRun(s: seq<char>, i: nat, j: nat)
    requires i <= j <= |s|
    requires forall k :: i <= k < j ==> IsCountedDigit(s[k])
    requires j == |s| || !IsCountedDigit(s[j])
    ensures NumberAt(s, i) == Parsed(Ok(Number(DecimalValue(s[i..j]))), j)
  {
    DigitRunIsMaximal(s, i, j);
  }

  lemma {:induction false} DigitRunIsMaximal(s: seq<char>, i: nat, j: nat)
    requires i <= j <= |s|
    ensures DigitRunEnd(s, i) == j <==>
      (forall k :: i <= k < j ==> IsCountedDigit(s[k])) && (j == |s| || !IsCountedDigit(s[j]))
    decreases j - i
  {
    RunIsDigits(s, i);
    if (forall k :: i <= k < j ==> IsCountedDigit(s[k])) && (j == |s| || !IsCountedDigit(s[j])) && i < j {
      DigitRunIsMaximal(s, i + 1, j);
    }
  }


  // ---------------------------------------------------------------------
  // Literals

  /** `true` and `false` are recognised by their whole word, tried in that
      order; anything else is a ParseError at the same cursor. */
  lemma BoolWords(s: seq<char>, i: nat)
    requires i <= |s|
    ensures BoolAt(s, i) == Parsed(Ok(Bool(true)), i + 4) <==> HasWordAt(s, i, "true")
    ensures BoolAt(s, i) == Parsed(Ok(Bool(false)), i + 5) <==>
      !HasWordAt(s, i, "true") && HasWordAt(s, i, "false")
    ensures BoolAt(s, i) == Parsed(Err(ParseError), i) <==>
      !HasWordAt(s, i, "true") && !HasWordAt(s, i, "false")
  {
  }

  /** `null` is recognised by its whole word. */
  lemma NullWord(s: seq<char>, i: nat)
    requires i <= |s|
    ensures NullAt(s, i) == Parsed(Ok(Null), i + 4) <==> HasWordAt(s, i, "null")
    ensures NullAt(s, i) == Parsed(Err(ParseError), i) <==> !HasWordAt(s, i, "null")
  {
  }

  // ---------------------------------------------------------------------
  // Values

  /** Leading whitespace does not change what a value parses to. */
  lemma ValueSkipsWhitespace(s: seq<char>, i: nat)
    requires i <= |s|
    ensures ValueAt(s, i) == ValueAt(s, SkipWs(s, i))
  {
    SkipWsIdempotent(s, i);
  }

  // ---------------------------------------------------------------------
  // Objects

  /** An object with no pairs, `{` then optional whitespace then `}`, is
      rejected as InvalidJson. */
  lemma EmptyObjectRejected(s: seq<char>, i: nat)
    requires i < |s| && s[i] == '{'
    requires PeekAt(s, SkipWs(s, i + 1)) == '}'
    ensures ObjectAt(s, i) == Parsed(Err(InvalidJson), SkipWs(s, i + 1))
  {
    assert MemberAt(s, i + 1) == Parsed(Err(InvalidJson), SkipWs(s, i + 1));
  }

  /** A pair whose key is not followed (after whitespace) by `:` is a
      ParseError at the character found instead. */
  lemma MissingColonRejected(s: seq<char>, i: nat)
    requires i <= |s|
    requires PeekAt(s, SkipWs(s, i)) != '}'
    requires StringAt(s, SkipWs(s, i)).result.Ok?
    requires PeekAt(s, SkipWs(s, StringAt(s, SkipWs(s, i)).cursor)) != ':'
    ensures MemberAt(s, i) == Parsed(Err(ParseError), SkipWs(s, StringAt(s, SkipWs(s, i)).cursor))
  {
    SkipWsIdempotent(s, i);
  }

  /** What may follow a pair: `}` closes the object with the pair stored,
      `,` followed by `}` is InvalidJson, and any other character is a
      ParseError at that character. */
  lemma AfterPair(s: seq<char>, i: nat, m: map<string, JsonValue>, key: string, value: JsonValue, e: nat)
    requires i <= |s|
    requires MemberAt(s, i) == Parsed(Ok((key, value)), e)
    ensures var c := SkipWs(s, e);
      PeekAt(s, c) == '}' ==> MembersFrom(s, i, m) == Parsed(Ok(Object(m[key := value])), c + 1)
    ensures var c := SkipWs(s, e);
      PeekAt(s, c) != '}' && PeekAt(s, c) != ',' ==> MembersFrom(s, i, m) == Parsed(Err(ParseError), c)
    ensures var c := SkipWs(s, e);
      PeekAt(s, c) == ',' && PeekAt(s, SkipWs(s, c + 1)) == '}' ==>
        MembersFrom(s, i, m) == Parsed(Err(InvalidJson), SkipWs(s, c + 1))
  {
  }

  /** An object result with the pairs of m underneath it: its own pairs
      override those of m. Any other result is left as it is. */
  function WithPairs(m: map<string, JsonValue>, p: Parsed<JsonValue>): Parsed<JsonValue>
  {
    if p.result.Ok? && p.result.value.Object? then Parsed(Ok(Object(m + p.result.value.members)), p.cursor)
    else p
  }

  lemma WithPairsCompose(m: map<string, JsonValue>, key: string, value: JsonValue, p: Parsed<JsonValue>)
    ensures WithPairs(m, WithPairs(map[key := value], p)) == WithPairs(m[key := value], p)
  {
    if p.result.Ok? && p.result.value.Object? {
      var r := p.result.value.members;
      assert m + (map[key := value] + r) == m[key := value] + r;
    }
  }

  /** The pairs read before cursor i only seed the map: reading from i with
      m gives what reading from i with no pairs gives, laid over m. So of
      two pairs with the same key the later one wins, and errors and final
      cursors do not depend on m. */
  lemma {:induction false} MembersOverride(s: seq<char>, i: nat, m: map<string, JsonValue>)
    requires i <= |s|
    ensures MembersFrom(s, i, m) == WithPairs(m, MembersFrom(s, i, map[]))
    decreases |s| - i
  {
    var pair := MemberAt(s, i);
    if pair.result.Ok? {
      var (key, value) := pair.result.value;
      var sep := SeparatorAt(s, pair.cursor);
      if sep.result == Ok(false) {
        MembersOverride(s, sep.cursor, m[key := value]);
        MembersOverride(s, sep.cursor, map[key := value]);
        WithPairsCompose(m, key, value, MembersFrom(s, sep.cursor, map[]));
      } else if sep.result == Ok(true) {
        assert m[key := value] == m + map[key := value];
      }
    }
  }

  /** A parsed object holds the last value read for each of its keys; in
      particular the pair read first is present unless a later pair with
      the same key replaced its value. */
  lemma FirstKeyPresent(s: seq<char>, i: nat, key: string, value: JsonValue, e: nat)
    requires i <= |s|
    requires MemberAt(s, i) == Parsed(Ok((key, value)), e)
    requires MembersFrom(s, i, map[]).result.Ok?
    ensures MembersFrom(s, i, map[]).result.value.Object?
    ensures key in MembersFrom(s, i, map[]).result.value.members
  {
    var sep := SeparatorAt(s, e);
    if sep.result == Ok(false) {
      MembersOverride(s, sep.cursor, map[key := value]);
    }
  }

  // ---------------------------------------------------------------------
  // Arrays

  /** An array result with the elements of acc in front of its own. Any
      other result is left as it is. */
  function WithPrefix(acc: seq<JsonValue>, p: Parsed<JsonValue>): Parsed<JsonValue>
  {
    if p.result.Ok? && p.result.value.Array? then Parsed(Ok(Array(acc + p.result.value.elems)), p.cursor)
    else p
  }

  lemma WithPrefixCompose(acc: seq<JsonValue>, x: JsonValue, p: Parsed<JsonValue>)
    ensures WithPrefix(acc, WithPrefix([x], p)) == WithPrefix(acc + [x], p)
  {
    if p.result.Ok? && p.result.value.Array? {
      var xs := p.result.value.elems;
      assert acc + ([x] + xs) == (acc + [x]) + xs;
    }
  }

  /** The elements read before cursor i are kept in front of those read
      from i on, so elements come out in the order of the text; errors and
      final cursors do not depend on them. */
  lemma {:induction false} ElementsInOrder(s: seq<char>, i: nat, acc: seq<JsonValue>)
    requires i <= |s|
    ensures ElementsFrom(s, i, acc) == WithPrefix(acc, ElementsFrom(s, i, []))
    decreases |s| - i
  {
    if PeekAt(s, i) != ']' {
      var v := ValueAt(s, SkipWs(s, i));
      if v.result.Ok? {
        var x, c := v.result.value, SkipWs(s, v.cursor);
        if PeekAt(s, c) == ',' || PeekAt(s, c) == ']' {
          var next := if PeekAt(s, c) == ',' then c + 1 else c;
          assert ElementsFrom(s, i, acc) == ElementsFrom(s, next, acc + [x]);
          assert [] + [x] == [x];
          assert ElementsFrom(s, i, []) == ElementsFrom(s, next, [x]);
          ElementsInOrder(s, next, acc + [x]);
          ElementsInOrder(s, next, [x]);
          WithPrefixCompose(acc, x, ElementsFrom(s, next, []));
        }
      }
    } else {
      assert acc + [] == acc;
    }
  }

  /** After an element, anything but `,` or `]` (after whitespace) is a
      ParseError at that character, and a failed element fails the array. */
  lemma ArrayElementErrors(s: seq<char>, i: nat, acc: seq<JsonValue>)
    requires i <= |s| && PeekAt(s, i) != ']'
    ensures var v := ValueAt(s, SkipWs(s, i));
      v.result.Err? ==> ElementsFrom(s, i, acc) == Parsed(Err(v.result.error), v.cursor)
    ensures var v := ValueAt(s, SkipWs(s, i));
      var c := SkipWs(s, v.cursor);
      v.result.Ok? && PeekAt(s, c) != ',' && PeekAt(s, c) != ']' ==>
        ElementsFrom(s, i, acc) == Parsed(Err(ParseError), c)
  {
  }

  // ---------------------------------------------------------------------
  // Whole documents

  /** A text parses to v exactly when a value v is read from its start and
      only whitespace follows it. */
  lemma ParseIsWholeValue(text: string, v: JsonValue)
    ensures Parse(text) == Ok(v) <==>
      ValueAt(text, 0).result == Ok(v) &&
      forall k :: ValueAt(text, 0).cursor <= k < |text| ==> IsWhitespace(text[k])
  {
    var e := ValueAt(text, 0).cursor;
    SkippedAreWhitespace(text, e);
    SkipWsIsMaximalRun(text, e, |text|);
  }

  /** Unconsumed input is reported in preference to any error of the value
      itself, at the first non-whitespace character after the value. */
  lemma TrailingInputReported(text: string)
    requires SkipWs(text, ValueAt(text, 0).cursor) < |text|
    ensures Parse(text) == Err(ConsumeInputNotFinished(SkipWs(text, ValueAt(text, 0).cursor)))
    ensures !IsWhitespace(text[SkipWs(text, ValueAt(text, 0).cursor)])
  {
  }

  /** A text of whitespace only (including the empty text) has no value:
      the dispatch sees the end-of-input sentinel. */
  lemma BlankTextRejected(text: string)
    requires forall k :: 0 <= k < |text| ==> IsWhitespace(text[k])
    ensures Parse(text) == Err(ParseHelperFailed)
  {
    SkipWsIsMaximalRun(text, 0, |text|);
    SkipWsIdempotent(text, |text|);
  }
}
