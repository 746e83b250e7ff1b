/** What one call of SmartScriptLexer.nextToken does, as functions of the input
    characters and the lexer's fields: the BASIC state reads text, the INTAG
    state reads tag names, strings, variables, functions, numbers, operators
    and the tag closing. */
module LexerSpec {
  import opened JavaLang
  import opened Elements

  datatype LexerState = BASIC | INTAG

  /** The lexer's fields: the last token (None before the first call), the
      index of the first unread character, and the state. */
  datatype LexState = LexState(token: Option<Element>, index: nat, state: LexerState)

  predicate IsBlank(c: char) { c == ' ' || c == '\t' || c == '\r' || c == '\n' }

  /** What may follow the first character of a variable or function name. */
  predicate IsNameChar(c: char) { IsLetter(c) || IsDigit(c) || c == '_' }

  /** The last token was the EOF operator. */
  predicate AtEOF(st: LexState)
  {
    st.token.Some? && IsOperator(st.token.value, "EOF")
  }

  /** "{$" starts at i. */
  predicate TagOpensAt(data: string, i: nat)
  {
    i + 1 < |data| && data[i] == '{' && data[i + 1] == '$'
  }

  /** skipBlanks: the end of the run of blanks starting at i. */
  function BlanksEnd(data: string, i: nat): (j: nat)
    requires i <= |data|
    ensures i <= j <= |data| && (j < |data| ==> !IsBlank(data[j]))
    ensures forall k :: i <= k < j ==> IsBlank(data[k])
    decreases |data| - i
  {
    if i < |data| && IsBlank(data[i]) then BlanksEnd(data, i + 1) else i
  }

  /** The end of the run of name characters starting at i. */
  function NameEnd(data: string, i: nat): (j: nat)
    requires i <= |data|
    ensures i <= j <= |data| && (j < |data| ==> !IsNameChar(data[j]))
    ensures forall k :: i <= k < j ==> IsNameChar(data[k])
    decreases |data| - i
  {
    if i < |data| && IsNameChar(data[i]) then NameEnd(data, i + 1) else i
  }

  /** lookForVariableName(text) at index i: the longest run of name characters
      is appended; when text is empty the run must start with a letter (an
      empty text at the end of input stays empty). */
  function VariableName(data: string, i: nat, text: string): (r: Result<(string, nat)>)
    requires i <= |data|
    ensures r.Ok? ==> i <= r.value.1 <= |data| && r.value.0 == text + data[i..r.value.1]
    ensures r.Ok? ==> r.value.1 == |data| || !IsNameChar(data[r.value.1])
    ensures r.Err? <==> text == [] && i < |data| && !IsLetter(data[i])
  {
    if text == [] && i < |data| && !IsLetter(data[i]) then Err(LexerError("Invalid variable name"))
    else
      var j := NameEnd(data, i);
      Ok((text + data[i..j], j))
  }

  /** One more name character moves from the input to the name. */
  lemma VariableNameStep(data: string, i: nat, text: string)
    requires i < |data| && IsNameChar(data[i]) && (text == [] ==> IsLetter(data[i]))
    ensures VariableName(data, i, text) == VariableName(data, i + 1, text + [data[i]])
  {
    var e := NameEnd(data, i);
    assert e == NameEnd(data, i + 1);
    assert data[i..e] == [data[i]] + data[i + 1..e];
    assert text + [data[i]] + data[i + 1..e] == text + data[i..e];
  }

  /** lookForTagName at index i: blanks are skipped and the next character read
      without a bounds check; '=' is a name of its own, a letter starts a name
      that is upper-cased, anything else is rejected. */
  function TagName(data: string, i: nat): (r: Result<(string, nat)>)
    requires i <= |data|
    ensures r.Ok? ==> i < r.value.1 <= |data| && |r.value.0| > 0
    ensures r.Ok? ==> r.value.0 == "=" || forall k :: 0 <= k < |r.value.0| ==> !('a' <= r.value.0[k] <= 'z')
    ensures r == Err(IndexOutOfBounds) <==> BlanksEnd(data, i) == |data|
  {
    var j := BlanksEnd(data, i);
    if j == |data| then Err(IndexOutOfBounds)
    else if data[j] == '=' then Ok(("=", j + 1))
    else if IsLetter(data[j]) then
      var e := NameEnd(data, j + 1);
      Ok((UpperCase(data[j..e]), e))
    else Err(LexerError("Invalid tag name"))
  }

  /** The end of the digits of a number starting at start, and the end of the
      digits after its '.' (the same index when there is no '.'). */
  function NumberEnds(data: string, start: nat): (r: (nat, nat))
    requires start <= |data|
    ensures start <= r.0 <= r.1 <= |data|
  {
    var j1 := DigitRunEnd(data, start);
    (j1, if j1 < |data| && data[j1] == '.' then DigitRunEnd(data, j1 + 1) else j1)
  }

  /** lookForNumber(text) at index i: digits with at most one '.', appended to
      text; a space right after them is consumed as well. */
  function Number(data: string, i: nat, text: string): (r: (string, nat))
    requires i <= |data|
    ensures i <= r.1 <= |data|
  {
    var j2 := NumberEnds(data, i).1;
    var next := if j2 < |data| && data[j2] == ' ' then j2 + 1 else j2;
    (text + data[i..j2], next)
  }

  /** lookForNumber at index i, whether a '.' was read yet: the digits
      before the '.' are being read, or those after it. */
  ghost predicate NumberScan(data: string, start: nat, i: nat, decimal: bool)
    requires start <= |data|
  {
    var (j1, j2) := NumberEnds(data, start);
    i <= |data| &&
    (!decimal ==> i <= j1 && DigitRunEnd(data, i) == j1) &&
    (decimal ==> j1 < i <= j2 && data[j1] == '.' && DigitRunEnd(data, i) == j2)
  }

  /** A digit, or a first '.', moves the scan one character on. */
  lemma NumberScanStep(data: string, start: nat, i: nat, decimal: bool)
    requires start <= |data| && NumberScan(data, start, i, decimal) && i < |data|
    requires IsDigit(data[i]) || (!decimal && data[i] == '.')
    ensures NumberScan(data, start, i + 1, decimal || data[i] == '.')
  {
  }

  /** Any other character, or the end of the input, ends the number. */
  lemma NumberScanEnd(data: string, start: nat, i: nat, decimal: bool, text: string)
    requires start <= |data| && NumberScan(data, start, i, decimal)
    requires i < |data| ==> !(IsDigit(data[i]) || (!decimal && data[i] == '.'))
    ensures i == NumberEnds(data, start).1
    ensures Number(data, start, text) == (text + data[start..i], if i < |data| && data[i] == ' ' then i + 1 else i)
  {
  }

  /** The body of a quoted string from index i, appended to text: up to the
      closing quote, which is consumed. \n, \r and \t stand for their control
      characters; \\ and \" append the decimal sum of the two character codes
      ("184" and "126"); any other escape is rejected; a backslash that is the
      last character is kept as it is. */
  function QuotedString(data: string, i: nat, text: string): (r: Result<(string, nat)>)
    requires i <= |data|
    ensures r.Ok? ==> i < r.value.1 <= |data| && data[r.value.1 - 1] == '"'
    decreases |data| - i
  {
    if i == |data| then Err(LexerError("String was not closed"))
    else
      var c := data[i];
      if c == '"' then Ok((text, i + 1))
      else if c == '\\' && i + 1 < |data| then
        var c1 := data[i + 1];
        if c1 == '\\' || c1 == '"' then QuotedString(data, i + 2, text + EscapedPairText(c1))
        else if c1 == 'n' then QuotedString(data, i + 2, text + "\n")
        else if c1 == 'r' then QuotedString(data, i + 2, text + "\r")
        else if c1 == 't' then QuotedString(data, i + 2, text + "\t")
        else Err(LexerError("Invalid escaping in string"))
      else QuotedString(data, i + 1, text + [c])
  }

  /** What `\\` and `\"` append inside a string: the two characters are added
      as ints, and the decimal text of the sum is appended (see EscapedPairIsCharSum). */
  function EscapedPairText(c1: char): string
    requires c1 == '\\' || c1 == '"'
  {
    if c1 == '\\' then "184" else "126"
  }

  /** EscapedPairText is the text of the int sum of a backslash and the
      escaped character. */
  lemma EscapedPairIsCharSum(c1: char)
    requires c1 == '\\' || c1 == '"'
    ensures EscapedPairText(c1) == IntToString('\\' as int + c1 as int)
  {
    if c1 == '\\' {
      assert '\\' as int + c1 as int == 184;
      assert NatToString(1) == "1" && NatToString(18) == "18";
    } else {
      assert '\\' as int + c1 as int == 126;
      assert NatToString(1) == "1" && NatToString(12) == "12";
    }
  }

  /** Text in the BASIC state from index i, appended to text: up to the end of
      input or the next "{$"; \\ and \{ stand for their second character and any
      other escape, or a backslash at the end, is rejected. */
  function BasicText(data: string, i: nat, text: string): (r: Result<(string, nat)>)
    requires i <= |data|
    ensures r.Ok? ==> i <= r.value.1 <= |data|
    ensures r.Ok? ==> r.value.1 == |data| || TagOpensAt(data, r.value.1)
    ensures r.Ok? && i < |data| && !TagOpensAt(data, i) ==> i < r.value.1
    decreases |data| - i
  {
    if i == |data| || TagOpensAt(data, i) then Ok((text, i))
    else if data[i] == '\\' then
      if i + 1 == |data| then Err(LexerError("Invalid escaping"))
      else if data[i + 1] == '\\' || data[i + 1] == '{' then BasicText(data, i + 2, text + [data[i + 1]])
      else Err(LexerError("Invalid escaping"))
    else BasicText(data, i + 1, text + [data[i]])
  }

  /** A token read in the INTAG state after a tag name, at index j (blanks
      already skipped, j < |data|). */
  function TagToken(data: string, j: nat): (r: Result<LexState>)
    requires j < |data|
    ensures r.Ok? ==> j < r.value.index <= |data| && r.value.token.Some?
    ensures r.Ok? ==> !IsOperator(r.value.token.value, "EOF")
  {
    var c := data[j];
    if c == '"' then
      match QuotedString(data, j + 1, "")
      case Err(f) => Err(f)
      case Ok((s, k)) => Ok(LexState(Some(ElementString(s)), k, INTAG))
    else if IsLetter(c) then
      var e := NameEnd(data, j + 1);
      Ok(LexState(Some(ElementVariable(data[j..e])), e, INTAG))
    else if IsDigit(c) || (c == '-' && j + 1 < |data| && IsDigit(data[j + 1])) then
      var (lexeme, k) := Number(data, j + 1, [c]);
      if '.' in lexeme then Ok(LexState(Some(ElementConstantDouble(lexeme)), k, INTAG))
      else
        (match ParseInt(lexeme)
         case Err(f) => Err(f)
         case Ok(v) => Ok(LexState(Some(ElementConstantInteger(v)), k, INTAG)))
    else if c == '@' then
      match VariableName(data, j + 1, "@")
      case Err(f) => Err(f)
      case Ok((name, k)) => Ok(LexState(Some(ElementFunction(name)), k, INTAG))
    else if c == '+' || c == '-' || c == '/' || c == '*' || c == '^' then
      Ok(LexState(Some(ElementOperator([c])), j + 1, INTAG))
    else if c == '$' && j + 1 < |data| && data[j + 1] == '}' then
      Ok(LexState(Some(ElementOperator("$}")), j + 2, BASIC))
    else Err(LexerError("Invalid tag"))
  }

  /** One nextToken call. */
  function Step(data: string, st: LexState): (r: Result<LexState>)
    requires st.index <= |data|
    ensures r.Ok? ==> r.value.index <= |data| && r.value.token.Some?
    ensures r.Ok? ==> Measure(data, r.value) < Measure(data, st)
    ensures AtEOF(st) ==> r == Err(LexerError("There is no next token"))
  {
    if AtEOF(st) then Err(LexerError("There is no next token"))
    else if st.index == |data| then Ok(LexState(Some(ElementOperator("EOF")), st.index, st.state))
    else if st.state == BASIC then
      if TagOpensAt(data, st.index) then Ok(LexState(Some(ElementOperator("{$")), st.index + 2, INTAG))
      else
        match BasicText(data, st.index, "")
        case Err(f) => Err(f)
        case Ok((text, j)) => Ok(LexState(Some(ElementString(text)), j, BASIC))
    else if st.token.Some? && IsOperator(st.token.value, "{$") then
      match TagName(data, st.index)
      case Err(f) => Err(f)
      case Ok((name, j)) => Ok(LexState(Some(ElementOperator(name)), j, INTAG))
    else
      var j := BlanksEnd(data, st.index);
      if j == |data| then Err(IndexOutOfBounds)
      else TagToken(data, j)
  }

  /** Input left plus one for a lexer that may still return EOF: every
      successful nextToken makes it smaller. */
  function Measure(data: string, st: LexState): nat
    requires st.index <= |data|
  {
    |data| - st.index + (if AtEOF(st) then 0 else 1)
  }

  /** The tokens of the rest of the input, up to and including EOF, or the
      exception that stops the lexer first. */
  function TokensFrom(data: string, st: LexState): (r: Result<seq<Element>>)
    requires st.index <= |data|
    ensures r.Ok? ==> |r.value| > 0 && IsOperator(r.value[|r.value| - 1], "EOF")
    decreases Measure(data, st)
  {
    match Step(data, st)
    case Err(f) => Err(f)
    case Ok(next) =>
      if AtEOF(next) then Ok([next.token.value])
      else
        match TokensFrom(data, next)
        case Err(f) => Err(f)
        case Ok(rest) => Ok([next.token.value] + rest)
  }

  /** All the tokens of a text, from a new lexer. */
  function Tokens(data: string): Result<seq<Element>>
  {
    TokensFrom(data, LexState(None, 0, BASIC))
  }
}
