/** SmartScriptLexer: a pull lexer over the characters of a document, with the
    last token, the current index and the state as fields. */
module Lexer {
  import opened JavaLang
  import opened Elements
  import opened LexerSpec

  class SmartScriptLexer {
    const data: string
    var token: Option<Element>
    var currentIndex: nat
    var state: LexerState

    ghost predicate Valid()
      reads this
    {
      currentIndex <= |data|
    }

    /** The fields, as the specification functions see them. */
    ghost function Fields(): LexState
      reads this
    {
      LexState(token, currentIndex, state)
    }

    /** A lexer at the start of the text, in the BASIC state, with no token yet. */
    constructor (text: string)
      ensures Valid() && data == text && Fields() == LexState(None, 0, BASIC)
    {
      data := text;
      token := None;
      currentIndex := 0;
      state := BASIC;
    }

    /** nextToken: the next token, which also becomes the current one. */
    method NextToken() returns (r: Result<Element>)
      requires Valid()
      modifies this
      ensures Valid()
      ensures match Step(data, old(Fields()))
        case Ok(next) => Fields() == next && r == Ok(next.token.value)
        case Err(f) => r == Err(f)
    {
      var fault := ExtractNextToken();
      if fault.Some? {
        return Err(fault.value);
      }
      r := Ok(token.value);
    }

    /** getToken: the current token, without reading on. */
    method GetToken() returns (r: Option<Element>)
      ensures r == token
    {
      r := token;
    }

    /** skipBlanks: past spaces, tabs, carriage returns and newlines. */
    method SkipBlanks()
      requires Valid()
      modifies this
      ensures Valid() && currentIndex == BlanksEnd(data, old(currentIndex))
      ensures token == old(token) && state == old(state)
    {
      while currentIndex < |data|
        invariant old(currentIndex) <= currentIndex <= |data|
        invariant BlanksEnd(data, currentIndex) == BlanksEnd(data, old(currentIndex))
        invariant token == old(token) && state == old(state)
        decreases |data| - currentIndex
      {
        var c := data[currentIndex];
        if c == ' ' || c == '\t' || c == '\r' || c == '\n' {
          currentIndex := currentIndex + 1;
        } else {
          break;
        }
      }
    }

    /** extractNextToken: one step of the state machine; the exception, if any,
        is returned (the fields are then left as they are). */
    method ExtractNextToken() returns (fault: Option<Fault>)
      requires Valid()
      modifies this
      ensures Valid()
      ensures match Step(data, old(Fields()))
        case Ok(next) => fault.None? && Fields() == next
        case Err(f) => fault == Some(f)
    {
      if token.Some? && token.value.ElementOperator? && token.value.symbol == "EOF" {
        return Some(LexerError("There is no next token"));
      }
      if currentIndex == |data| {
        token := Some(ElementOperator("EOF"));
        return None;
      }
      if state == BASIC {
        fault := ExtractText();
      } else {
        fault := ExtractInTag();
      }
    }

    /** The BASIC branch: text up to the next "{$", or "{$" itself when no text
        precedes it. */
    method ExtractText() returns (fault: Option<Fault>)
      requires Valid() && currentIndex < |data| && state == BASIC && !AtEOF(Fields())
      modifies this
      ensures Valid()
      ensures match Step(data, old(Fields()))
        case Ok(next) => fault.None? && Fields() == next
        case Err(f) => fault == Some(f)
    {
      ghost var start := currentIndex;
      var text := "";
      while currentIndex < |data|
        invariant start <= currentIndex <= |data| && state == BASIC
        invariant text == [] ==> currentIndex == start
        invariant BasicText(data, currentIndex, text) == BasicText(data, start, "")
        decreases |data| - currentIndex
      {
        var c := data[currentIndex];
        ghost var i := currentIndex;
        if c == '{' && currentIndex + 1 < |data| && data[currentIndex + 1] == '$' {
          if text != "" {
            break;
          }
          token := Some(ElementOperator("{$"));
          state := INTAG;
          currentIndex := currentIndex + 2;
          return None;
        }
        if c == '\\' {
          currentIndex := currentIndex + 1;
          if currentIndex == |data| {
            assert BasicText(data, i, text) == Err(LexerError("Invalid escaping"));
            return Some(LexerError("Invalid escaping"));
          }
          c := data[currentIndex];
          if c == '\\' || c == '{' {
            text := text + [c];
            currentIndex := currentIndex + 1;
          } else {
            assert BasicText(data, i, text) == Err(LexerError("Invalid escaping"));
            return Some(LexerError("Invalid escaping"));
          }
        } else {
          text := text + [c];
          currentIndex := currentIndex + 1;
        }
      }
      token := Some(ElementString(text));
      fault := None;
    }

    /** The INTAG branch: a tag name right after "{$", otherwise a string,
        variable, number, function, operator or "$}". */
    method ExtractInTag() returns (fault: Option<Fault>)
      requires Valid() && currentIndex < |data| && state == INTAG && !AtEOF(Fields())
      modifies this
      ensures Valid()
      ensures match Step(data, old(Fields()))
        case Ok(next) => fault.None? && Fields() == next
        case Err(f) => fault == Some(f)
    {
      if token.Some? && token.value.ElementOperator? && token.value.symbol == "{$" {
        var name := LookForTagName();
        if name.Err? {
          return Some(name.fault);
        }
        token := Some(ElementOperator(name.value));
        return None;
      }
      SkipBlanks();
      if currentIndex == |data| {
        // data[currentIndex] is read without a bounds check
        return Some(IndexOutOfBounds);
      }
      fault := ReadTagToken();
    }

    /** The token after blanks in a tag, at the current index. */
    method ReadTagToken() returns (fault: Option<Fault>)
      requires Valid() && currentIndex < |data| && state == INTAG
      modifies this
      ensures Valid()
      ensures match TagToken(data, old(currentIndex))
        case Ok(next) => fault.None? && Fields() == next
        case Err(f) => fault == Some(f)
    {
      var c := data[currentIndex];
      if c == '"' {
        fault := ReadString();
      } else if IsLetter(c) {
        ReadVariableToken();
        fault := None;
      } else if IsDigit(c) || (c == '-' && currentIndex + 1 < |data| && IsDigit(data[currentIndex + 1])) {
        fault := ReadNumberToken();
      } else if c == '@' {
        currentIndex := currentIndex + 1;
        var name := LookForVariableName("@");
        token := Some(ElementFunction(name.value));
        fault := None;
      } else if c == '+' || c == '-' || c == '/' || c == '*' || c == '^' {
        currentIndex := currentIndex + 1;
        token := Some(ElementOperator([c]));
        fault := None;
      } else if c == '$' && currentIndex + 1 < |data| && data[currentIndex + 1] == '}' {
        token := Some(ElementOperator("$}"));
        state := BASIC;
        currentIndex := currentIndex + 2;
        fault := None;
      } else {
        fault := Some(LexerError("Invalid tag"));
      }
    }

    /** A variable name in a tag, its first letter at the current index. */
    method ReadVariableToken()
      requires Valid() && currentIndex < |data| && state == INTAG && IsLetter(data[currentIndex])
      modifies this
      ensures Valid()
      ensures TagToken(data, old(currentIndex)) == Ok(Fields())
    {
      var c := data[currentIndex];
      ghost var e := NameEnd(data, currentIndex + 1);
      assert data[currentIndex..e] == [c] + data[currentIndex + 1..e];
      currentIndex := currentIndex + 1;
      var name := LookForVariableName([c]);
      token := Some(ElementVariable(name.value));
    }

    /** A number in a tag: a digit, or a minus sign before a digit, at the
        current index. */
    method ReadNumberToken() returns (fault: Option<Fault>)
      requires Valid() && currentIndex < |data| && state == INTAG
      requires IsDigit(data[currentIndex]) || (data[currentIndex] == '-' && currentIndex + 1 < |data| && IsDigit(data[currentIndex + 1]))
      modifies this
      ensures Valid()
      ensures match TagToken(data, old(currentIndex))
        case Ok(next) => fault.None? && Fields() == next
        case Err(f) => fault == Some(f)
    {
      var c := data[currentIndex];
      currentIndex := currentIndex + 1;
      var text := LookForNumber([c]);
      if '.' in text {
        token := Some(ElementConstantDouble(text));
        fault := None;
      } else {
        var value := ParseInt(text);
        if value.Err? {
          return Some(value.fault);
        }
        token := Some(ElementConstantInteger(value.value));
        fault := None;
      }
    }

    /** A quoted string, the opening quote at the current index. */
    method ReadString() returns (fault: Option<Fault>)
      requires Valid() && currentIndex < |data| && data[currentIndex] == '"' && state == INTAG
      modifies this
      ensures Valid()
      ensures match QuotedString(data, old(currentIndex) + 1, "")
        case Ok((s, k)) => fault.None? && Fields() == LexState(Some(ElementString(s)), k, INTAG)
        case Err(f) => fault == Some(f)
    {
      var i := currentIndex + 1;
      ghost var start := i;
      var text := "";
      while i < |data|
        invariant start <= i <= |data| && state == INTAG && currentIndex == start - 1
        invariant QuotedString(data, i, text) == QuotedString(data, start, "")
        decreases |data| - i
      {
        var c := data[i];
        if c == '"' {
          currentIndex := i + 1;
          token := Some(ElementString(text));
          return None;
        } else if c == '\\' && i + 1 < |data| {
          var c1 := data[i + 1];
          if c1 == '\\' || c1 == '"' {
            // Character + Character is an int addition
            EscapedPairIsCharSum(c1);
            text := text + IntToString(c as int + c1 as int);
            i := i + 2;
          } else if c1 == 'n' {
            text := text + "\n";
            i := i + 2;
          } else if c1 == 'r' {
            text := text + "\r";
            i := i + 2;
          } else if c1 == 't' {
            text := text + "\t";
            i := i + 2;
          } else {
            return Some(LexerError("Invalid escaping in string"));
          }
        } else {
          text := text + [c];
          i := i + 1;
        }
      }
      fault := Some(LexerError("String was not closed"));
    }

    /** lookForVariableName(text). */
    method LookForVariableName(text: string) returns (r: Result<string>)
      requires Valid()
      modifies this
      ensures Valid() && token == old(token) && state == old(state)
      ensures match VariableName(data, old(currentIndex), text)
        case Ok((name, j)) => r == Ok(name) && currentIndex == j
        case Err(f) => r == Err(f)
    {
      ghost var start := currentIndex;
      var i := currentIndex;
      var newText := text;
      while i < |data|
        invariant start <= i <= |data|
        invariant token == old(token) && state == old(state) && currentIndex == start
        invariant newText == [] ==> i == start && text == []
        invariant newText != [] ==> VariableName(data, start, text) == VariableName(data, i, newText)
        decreases |data| - i
      {
        var c := data[i];
        if |newText| == 0 {
          if IsLetter(c) {
            VariableNameStep(data, i, newText);
            newText := newText + [c];
            i := i + 1;
          } else {
            return Err(LexerError("Invalid variable name"));
          }
        } else {
          if IsLetter(c) || IsDigit(c) || c == '_' {
            VariableNameStep(data, i, newText);
            newText := newText + [c];
            i := i + 1;
          } else {
            break;
          }
        }
      }
      assert VariableName(data, start, text) == Ok((newText, i)) by {
        assert NameEnd(data, i) == i && newText + data[i..i] == newText;
      }
      currentIndex := i;
      r := Ok(newText);
    }

    /** lookForTagName: '=' or an upper-cased name, blanks skipped first. */
    method LookForTagName() returns (r: Result<string>)
      requires Valid()
      modifies this
      ensures Valid() && token == old(token) && state == old(state)
      ensures match TagName(data, old(currentIndex))
        case Ok((name, j)) => r == Ok(name) && currentIndex == j
        case Err(f) => r == Err(f)
    {
      SkipBlanks();
      if currentIndex == |data| {
        // data[currentIndex] is read without a bounds check
        return Err(IndexOutOfBounds);
      }
      var c := data[currentIndex];
      if c == '=' || IsLetter(c) {
        currentIndex := currentIndex + 1;
        if c == '=' {
          return Ok("=");
        }
        var name := LookForVariableName([c]);
        r := Ok(UpperCase(name.value));
      } else {
        r := Err(LexerError("Invalid tag name"));
      }
    }

    /** lookForNumber(text): digits and at most one '.'; a following space is
        consumed. */
    method LookForNumber(text: string) returns (r: string)
      requires Valid()
      modifies this
      ensures Valid() && token == old(token) && state == old(state)
      ensures (r, currentIndex) == Number(data, old(currentIndex), text)
    {
      ghost var start := currentIndex;
      var i := currentIndex;
      var newText := text;
      var decimal := false;
      while i < |data|
        invariant start <= i <= |data|
        invariant token == old(token) && state == old(state) && currentIndex == start
        invariant newText == text + data[start..i]
        invariant NumberScan(data, start, i, decimal)
        decreases |data| - i
      {
        var c := data[i];
        if IsDigit(c) || (!decimal && c == '.') {
          NumberScanStep(data, start, i, decimal);
          assert data[start..i + 1] == data[start..i] + [c];
          newText := newText + [c];
          i := i + 1;
          if c == '.' {
            decimal := true;
          }
        } else if c == ' ' {
          NumberScanEnd(data, start, i, decimal, text);
          currentIndex := i + 1;
          return newText;
        } else {
          NumberScanEnd(data, start, i, decimal, text);
          break;
        }
      }
      NumberScanEnd(data, start, i, decimal, text);
      currentIndex := i;
      r := newText;
    }
  }
}
