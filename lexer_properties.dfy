/** What the lexer guarantees across calls: text and strings written with the
    escapes it accepts come back unchanged, integer literals come back as their
    value, EOF is final, and the places where it fails. */
module LexerProperties {
  import opened JavaLang
  import opened Elements
  import opened LexerSpec

  /** Text as it must be written to reach the BASIC state's reader unchanged:
      every '\' and '{' preceded by a '\'. */
  function EscapeText(t: string): (r: string)
    ensures |r| >= |t|
    ensures t != [] ==> r[0] == '\\' || r[0] == t[0]
  {
    if t == [] then []
    else (if t[0] == '\\' || t[0] == '{' then ['\\', t[0]] else [t[0]]) + EscapeText(t[1..])
  }

  /** Reading escaped text stops right after it, at the end of input or at a
      tag opening, with the text restored. */
  lemma {:induction false} BasicTextReadsEscaped(data: string, i: nat, t: string, acc: string)
    requires i + |EscapeText(t)| <= |data| && data[i..i + |EscapeText(t)|] == EscapeText(t)
    requires i + |EscapeText(t)| == |data| || TagOpensAt(data, i + |EscapeText(t)|)
    ensures BasicText(data, i, acc) == Ok((acc + t, i + |EscapeText(t)|))
    decreases |t|
  {
    if t == [] {
      assert acc + t == acc;
    } else {
      var n := EscapedHead(data, i, t, acc);
      BasicTextReadsEscaped(data, i + n, t[1..], acc + [t[0]]);
      assert acc + [t[0]] + t[1..] == acc + t;
    }
  }

  /** The first character of escaped text takes n = 1 or 2 characters and is
      read as itself; the rest of the escaped text follows. */
  lemma EscapedHead(data: string, i: nat, t: string, acc: string) returns (n: nat)
    requires t != [] && i + |EscapeText(t)| <= |data| && data[i..i + |EscapeText(t)|] == EscapeText(t)
    ensures n == |EscapeText(t)| - |EscapeText(t[1..])| && i + n <= |data|
    ensures data[i + n..i + |EscapeText(t)|] == EscapeText(t[1..])
    ensures BasicText(data, i, acc) == BasicText(data, i + n, acc + [t[0]])
  {
    var e := EscapeText(t);
    var e1 := EscapeText(t[1..]);
    var head := if t[0] == '\\' || t[0] == '{' then ['\\', t[0]] else [t[0]];
    assert e == head + e1;
    n := |head|;
    assert data[i..i + |e|][..n] == head;
    assert data[i] == head[0];
    assert !TagOpensAt(data, i) by {
      assert head[0] != '{';
    }
    assert data[i + n..i + |e|] == e1 by {
      assert data[i..i + |e|][n..] == e1;
    }
    if n == 2 {
      assert data[i + 1] == t[0];
    }
  }

  /** Any non-empty text, escaped, is read back as one String token that ends
      at the next tag opening or at the end of input. */
  lemma TextTokenRoundTrip(t: string, rest: string)
    requires t != [] && (rest == [] || TagOpensAt(rest, 0))
    ensures Step(EscapeText(t) + rest, LexState(None, 0, BASIC))
         == Ok(LexState(Some(ElementString(t)), |EscapeText(t)|, BASIC))
  {
    var e := EscapeText(t);
    var data := e + rest;
    assert data[0..|e|] == e;
    assert rest != [] ==> TagOpensAt(data, |e|) by {
      if rest != [] {
        assert data[|e|] == rest[0] && data[|e| + 1] == rest[1];
      }
    }
    BasicTextReadsEscaped(data, 0, t, "");
    assert !TagOpensAt(data, 0) by {
      assert data[0] == e[0];
      assert t[0] == '{' ==> e[0] == '\\';
    }
    assert "" + t == t;
  }

  /** A backslash must be escaped: "a\b" is rejected. */
  lemma BadTextEscapeRejected()
    ensures Step("a\\b", LexState(None, 0, BASIC)) == Err(LexerError("Invalid escaping"))
  {
    var data := "a\\b";
    assert BasicText(data, 1, "a") == Err(LexerError("Invalid escaping"));
  }

  /** The inside of a quoted string for text with no '\' and no '"': newline,
      carriage return and tab written as \n, \r and \t. */
  function QuoteBody(t: string): (r: string)
    ensures |r| >= |t|
  {
    if t == [] then []
    else
      (if t[0] == '\n' then "\\n" else if t[0] == '\r' then "\\r" else if t[0] == '\t' then "\\t"
       else [t[0]]) + QuoteBody(t[1..])
  }

  /** A quoted string is read back as its text, and the closing quote is consumed. */
  lemma {:induction false} QuotedStringReadsBody(data: string, i: nat, t: string, acc: string)
    requires forall k :: 0 <= k < |t| ==> t[k] != '\\' && t[k] != '"'
    requires i + |QuoteBody(t)| < |data| && data[i..i + |QuoteBody(t)|] == QuoteBody(t)
    requires data[i + |QuoteBody(t)|] == '"'
    ensures QuotedString(data, i, acc) == Ok((acc + t, i + |QuoteBody(t)| + 1))
    decreases |t|
  {
    if t == [] {
      assert acc + t == acc;
    } else {
      var n := QuotedHead(data, i, t, acc);
      QuotedStringReadsBody(data, i + n, t[1..], acc + [t[0]]);
      calc {
        QuotedString(data, i, acc);
        QuotedString(data, i + n, acc + [t[0]]);
        Ok((acc + [t[0]] + t[1..], i + n + |QuoteBody(t[1..])| + 1));
        { assert acc + [t[0]] + t[1..] == acc + t; }
        Ok((acc + t, i + |QuoteBody(t)| + 1));
      }
    }
  }

  /** The first character of a quoted body takes n = 1 or 2 characters and is
      read as itself; the rest of the body follows. */
  lemma QuotedHead(data: string, i: nat, t: string, acc: string) returns (n: nat)
    requires t != [] && forall k :: 0 <= k < |t| ==> t[k] != '\\' && t[k] != '"'
    requires i + |QuoteBody(t)| < |data| && data[i..i + |QuoteBody(t)|] == QuoteBody(t)
    ensures forall k :: 0 <= k < |t[1..]| ==> t[1..][k] != '\\' && t[1..][k] != '"'
    ensures n == |QuoteBody(t)| - |QuoteBody(t[1..])| && i + n <= |data|
    ensures data[i + n..i + |QuoteBody(t)|] == QuoteBody(t[1..])
    ensures QuotedString(data, i, acc) == QuotedString(data, i + n, acc + [t[0]])
  {
    var b := QuoteBody(t);
    var b1 := QuoteBody(t[1..]);
    var c := t[0];
    assert c != '\\' && c != '"';
    forall k | 0 <= k < |t[1..]| ensures t[1..][k] != '\\' && t[1..][k] != '"' {
      assert t[1..][k] == t[k + 1];
    }
    var head := if c == '\n' then "\\n" else if c == '\r' then "\\r" else if c == '\t' then "\\t" else [c];
    assert b == head + b1;
    n := |head|;
    assert data[i..i + |b|][..n] == head;
    assert data[i + n..i + |b|] == b1 by {
      assert data[i..i + |b|][n..] == b1;
    }
    if n == 2 {
      assert data[i..i + |b|][1] == data[i + 1];
      assert data[i] == '\\' && data[i + 1] == head[1];
    } else {
      assert data[i] == data[i..i + |b|][0] == c;
    }
  }

  /** The escapes \" and \\ do not give a quote and a backslash: Character + Character
      is an int addition, so "\"" reads as 126 and "\\" as 184. */
  lemma QuoteEscapesAddCodes()
    ensures QuotedString("\\\"\"", 0, "") == Ok(("126", 3))
    ensures QuotedString("\\\\\"", 0, "") == Ok(("184", 3))
  {
    var a := "\\\"\"";
    assert QuotedString(a, 2, "126") == Ok(("126", 3));
    assert "" + EscapedPairText('"') == "126";
    assert QuotedString(a, 0, "") == QuotedString(a, 2, "" + EscapedPairText('"'));
    var b := "\\\\\"";
    assert QuotedString(b, 2, "184") == Ok(("184", 3));
    assert "" + EscapedPairText('\\') == "184";
    assert QuotedString(b, 0, "") == QuotedString(b, 2, "" + EscapedPairText('\\'));
  }

  /** A string that is not closed is rejected. */
  lemma UnclosedStringRejected()
    ensures QuotedString("ab", 0, "") == Err(LexerError("String was not closed"))
  {
    assert QuotedString("ab", 2, "ab") == Err(LexerError("String was not closed"));
  }

  /** The end of a run of digits that stops at k. */
  lemma {:induction false} DigitRunEndAt(data: string, i: nat, k: nat)
    requires i <= k <= |data| && AllDigits(data[i..k]) && (k < |data| ==> !IsDigit(data[k]))
    ensures DigitRunEnd(data, i) == k
    decreases k - i
  {
    if i < k {
      assert IsDigit(data[i..k][0]);
      assert data[i + 1..k] == data[i..k][1..];
      DigitRunEndAt(data, i + 1, k);
    }
  }

  /** Every int, written by Integer.toString as s and followed by a space, is
      read in a tag as an Integer constant of that value, the space consumed. */
  lemma IntegerTokenRoundTrip(v: Int32, data: string, j: nat, s: string)
    requires s == IntToString(v)
    requires j + |s| < |data| && data[j..j + |s|] == s && data[j + |s|] == ' '
    ensures TagToken(data, j) == Ok(LexState(Some(ElementConstantInteger(v)), j + |s| + 1, INTAG))
  {
    IntToStringShape(v);
    IntegerLexemeRead(data, j, s);
    IntegerLexemeParsed(v, data, j, s, j + |s| + 1);
  }

  /** The lexeme Integer.toString wrote is parsed back by Integer.parseInt. */
  lemma IntegerLexemeParsed(v: Int32, data: string, j: nat, s: string, k: nat)
    requires s == IntToString(v)
    requires j < |data| && (IsDigit(data[j]) || (data[j] == '-' && j + 1 < |data| && IsDigit(data[j + 1])))
    requires Number(data, j + 1, [data[j]]) == (s, k)
    ensures TagToken(data, j) == Ok(LexState(Some(ElementConstantInteger(v)), k, INTAG))
  {
    assert ParseInt(s) == Ok(v) by {
      ParseIntToString(v);
    }
    NumberTokenIsInteger(data, j, s, v, k);
  }

  /** Integer.toString writes a digit, or a minus sign and a digit, then digits. */
  lemma IntToStringShape(v: int)
    ensures var s := IntToString(v);
      |s| > 0 && AllDigits(s[1..]) && (IsDigit(s[0]) || (s[0] == '-' && |s| > 1))
  {
    var s := IntToString(v);
    if v < 0 {
      var n := NatToString(-v);
      assert s == "-" + n && s[1..] == n;
    } else {
      assert s[1..] == NatToString(v)[1..];
    }
  }

  /** A sign or digit, then digits, then a space: the number the lexer reads. */
  lemma IntegerLexemeRead(data: string, j: nat, s: string)
    requires j + |s| < |data| && data[j..j + |s|] == s && data[j + |s|] == ' '
    requires |s| > 0 && AllDigits(s[1..]) && (IsDigit(s[0]) || (s[0] == '-' && |s| > 1))
    ensures Number(data, j + 1, [data[j]]) == (s, j + |s| + 1)
    ensures IsDigit(data[j]) || (data[j] == '-' && j + 1 < |data| && IsDigit(data[j + 1]))
  {
    var end := j + |s|;
    assert data[j] == s[0];
    assert Number(data, j + 1, [data[j]]) == (s, end + 1) by {
      assert data[j + 1..end] == s[1..];
      DigitRunEndAt(data, j + 1, end);
      assert [data[j]] + data[j + 1..end] == s;
    }
    assert IsDigit(data[j]) || (data[j] == '-' && j + 1 < |data| && IsDigit(data[j + 1])) by {
      if s[0] == '-' {
        assert data[j + 1] == s[1..][0];
      }
    }
  }

  /** A number lexeme that Integer.parseInt accepts becomes an Integer constant. */
  lemma NumberTokenIsInteger(data: string, j: nat, s: string, v: Int32, k: nat)
    requires j < |data| && (IsDigit(data[j]) || (data[j] == '-' && j + 1 < |data| && IsDigit(data[j + 1])))
    requires Number(data, j + 1, [data[j]]) == (s, k) && ParseInt(s) == Ok(v)
    ensures TagToken(data, j) == Ok(LexState(Some(ElementConstantInteger(v)), k, INTAG))
  {
  }

  /** Literals beyond the int range are rejected by Integer.parseInt. */
  lemma IntegerOverflowRejected()
    ensures TagToken("2147483648 ", 0) == Err(NumberFormat)
  {
    var data := "2147483648 ";
    DigitRunEndAt(data, 1, 10);
    assert data[1..10] == "147483648";
    var lexeme := "2147483648";
    assert [data[0]] + data[1..10] == lexeme;
    assert Number(data, 1, [data[0]]) == (lexeme, 11);
    OverflowParse();
  }

  /** 2^31 does not fit in an int. */
  lemma OverflowParse()
    ensures ParseInt("2147483648") == Err(NumberFormat)
  {
    var lexeme := "2147483648";
    assert DigitsValue(lexeme) == 2147483648 by {
      assert lexeme[..9] == "214748364";
      assert "214748364"[..8] == "21474836";
      assert "21474836"[..7] == "2147483";
      assert "2147483"[..6] == "214748";
      assert "214748"[..5] == "21474";
      LeadingDigitsValue();
    }
  }

  lemma LeadingDigitsValue()
    ensures DigitsValue("21474") == 21474
  {
    assert "21474"[..4] == "2147";
    assert "2147"[..3] == "214";
    assert "214"[..2] == "21";
    assert "21"[..1] == "2";
  }

  /** One token, then the rest of the stream. */
  lemma TokensFromStep(data: string, st: LexState, next: LexState, rest: seq<Element>)
    requires st.index <= |data| && Step(data, st) == Ok(next) && !AtEOF(next)
    requires TokensFrom(data, next) == Ok(rest)
    ensures TokensFrom(data, st) == Ok([next.token.value] + rest)
  {
  }

  /** The EOF token ends the stream. */
  lemma TokensFromLast(data: string, st: LexState, next: LexState)
    requires st.index <= |data| && Step(data, st) == Ok(next) && AtEOF(next)
    ensures TokensFrom(data, st) == Ok([next.token.value])
  {
  }

  /** A tag that ends in blanks at the end of input reads past the end of the
      array, while the same tag without the blank just ends: "{$= " fails where
      "{$=" returns EOF. */
  lemma TrailingBlankInTagFails()
    ensures Tokens("{$=") == Ok([ElementOperator("{$"), ElementOperator("="), ElementOperator("EOF")])
    ensures Tokens("{$= ") == Err(IndexOutOfBounds)
  {
    var a := "{$=";
    var s1 := LexState(Some(ElementOperator("{$")), 2, INTAG);
    var s2 := LexState(Some(ElementOperator("=")), 3, INTAG);
    assert Step(a, LexState(None, 0, BASIC)) == Ok(s1);
    assert BlanksEnd(a, 2) == 2;
    assert Step(a, s1) == Ok(s2);
    TokensFromLast(a, s2, LexState(Some(ElementOperator("EOF")), 3, INTAG));
    TokensFromStep(a, s1, s2, [ElementOperator("EOF")]);
    assert [s2.token.value] + [ElementOperator("EOF")] == [ElementOperator("="), ElementOperator("EOF")];
    TokensFromStep(a, LexState(None, 0, BASIC), s1, [ElementOperator("="), ElementOperator("EOF")]);
    assert [s1.token.value] + [ElementOperator("="), ElementOperator("EOF")]
        == [ElementOperator("{$"), ElementOperator("="), ElementOperator("EOF")];
    var b := "{$= ";
    var s2' := LexState(Some(ElementOperator("=")), 3, INTAG);
    assert Step(b, LexState(None, 0, BASIC)) == Ok(s1);
    assert BlanksEnd(b, 2) == 2;
    assert Step(b, s1) == Ok(s2');
    assert BlanksEnd(b, 3) == 4;
    assert Step(b, s2') == Err(IndexOutOfBounds);
  }

  /** A tag name is upper-cased, and a name that reads "EOF" ends the token
      stream: the next call fails. */
  lemma TagNamedEofEndsStream()
    ensures Tokens("{$eof$}") == Ok([ElementOperator("{$"), ElementOperator("EOF")])
  {
    var a := "{$eof$}";
    var s1 := LexState(Some(ElementOperator("{$")), 2, INTAG);
    assert Step(a, LexState(None, 0, BASIC)) == Ok(s1);
    assert BlanksEnd(a, 2) == 2;
    assert NameEnd(a, 5) == 5 && NameEnd(a, 4) == 5 && NameEnd(a, 3) == 5;
    assert a[2..5] == "eof";
    assert UpperCase("eof") == "EOF";
    assert Step(a, s1) == Ok(LexState(Some(ElementOperator("EOF")), 5, INTAG));
    TokensFromLast(a, s1, LexState(Some(ElementOperator("EOF")), 5, INTAG));
    TokensFromStep(a, LexState(None, 0, BASIC), s1, [ElementOperator("EOF")]);
    assert [s1.token.value] + [ElementOperator("EOF")] == [ElementOperator("{$"), ElementOperator("EOF")];
  }
}
