# SmartScript interpreter and collections, in Dafny

This project models the core of a small Java web server: SmartScript, its
template language, and the collection library the interpreter is built on.

A SmartScript document is text with tags in it:

- `{$FOR i 1 10 1$} … {$END$}` is a loop.
- `{$= i "x" + @dup $}` is an echo tag, evaluated on a stack.
- Everything else is text that is copied to the output.

The model covers the whole pipeline:

- `SmartScriptLexer` turns the document into tokens.
- `SmartScriptParser` builds the tree of nodes and checks that the tags are well formed.
- `DocumentNode` serialises the tree back to text.
- `SmartScriptEngine` walks the tree and writes the page to a `RequestContext`. It keeps loop variables on an `ObjectMultistack` of `ValueWrapper`s, whose arithmetic coerces Strings, Integers and null the way the Java class does.
- `RequestContext` holds the response's header settings, cookies and parameter maps. It writes the HTTP header once, on the first write.

Under all of this sit `ArrayIndexedCollection`, `LinkedListIndexedCollection`, `ObjectStack` and the `Collection`/`ElementsGetter`/`List` interfaces.

The model takes the Java code's own form:

- **Classes.** The classes whose fields the Java code updates are Dafny `class`es. Their methods are proved against specification functions:
  - the lexer against `LexerSpec.Step`;
  - the parser against `ParserSpec.ParseInput`;
  - the engine against `EngineSpec.ExecNode`;
  - the request context against `RequestContexts.Apply`/`Unless`.
- **Values.** Elements and the document tree are datatypes.
- **Exceptions.** Java exceptions are `Err` values of one `Fault` type (see `JavaLang.Fault`). Error paths are modelled as `Err` values rather than excluded by preconditions. There are two exceptions, each listed under "Left out": null references that the model's types cannot express (Strings, maps, cookies, testers), and an array collection added to itself. A null collection is modelled as `None` where the code accepts one.
- **Java `int`.** It is `Int32`, and the code's overflow is written out with `Wrap32`.

Modules, one per file:

| file | module | what it holds |
|---|---|---|
| `javalang.dfy` | `JavaLang` | exceptions, `Result`/`Option`, `int` arithmetic, `Integer.parseInt`/`toString`, `String.replace`, `trim`, ASCII character classes |
| `value_wrapper.dfy` | `ValueWrappers` | `convertType`, `doCalculation`, `numCompare` and the `ValueWrapper` class |
| `multistack.dfy` | `Multistack` | `MultistackEntry` and `ObjectMultistack` as linked nodes |
| `elements.dfy` | `Elements` | the token/element datatype and `asText` (including `Double.toString` of a literal) |
| `lexer_spec.dfy`, `lexer.dfy`, `lexer_properties.dfy` | `LexerSpec`, `Lexer`, `LexerProperties` | the lexer as functions, as a class, and what it guarantees |
| `nodes.dfy` | `Nodes` | the node datatype and the node arena with `addChildNode`/`getChild` |
| `parser_spec.dfy`, `parser.dfy`, `parser_properties.dfy`, `parser_examples.dfy` | `ParserSpec`, `Parser`, `ParserProperties`, `ParserExamples` | `parseInput` as functions, as a class, the tree invariant, and worked documents |
| `document.dfy` | `Documents` | `DocumentNode.visitNode`, `toString`, `equals` |
| `request_context.dfy`, `placeholders.dfy`, `request_context_properties.dfy` | `RequestContexts`, `Placeholders`, `RequestContextProperties` | the response object, `createHeader`'s placeholder substitution, header-once properties |
| `echo_stack.dfy`, `engine_spec.dfy`, `engine.dfy`, `engine_properties.dfy` | `EchoStacks`, `EngineSpec`, `Engine`, `EngineProperties` | the echo tag's scratch stack, the engine as functions, as a class, and what a walk does |
| `list_spec.dfy`, `array_collection.dfy`, `linked_collection.dfy`, `object_stack.dfy`, `collections.dfy`, `linked_scenarios.dfy` | `ListSpec`, `ArrayCollections`, `LinkedCollections`, `ObjectStacks`, `Collections`, `LinkedScenarios` | the collection library |

## Model

| member | source | states |
|---|---|---|
| `JavaLang.Wrap32` | src/main/java/hr/fer/zemris/java/custom/scripting/exec/ValueWrapper.java:117-124 | an `int` result is the exact result when it fits and congruent to it modulo 2^32 otherwise |
| `JavaLang.TruncDiv` | src/main/java/hr/fer/zemris/java/custom/scripting/exec/ValueWrapper.java:123-124 | Java's `/` rounds toward zero: the remainder is smaller than the divisor and has the dividend's sign |
| `JavaLang.UpperCase` | src/main/java/hr/fer/zemris/java/custom/scripting/lexer/SmartScriptLexer.java:355 | `toUpperCase` keeps the length, maps each character, and leaves no lower-case letter |
| `JavaLang.NatToString` | src/main/java/hr/fer/zemris/java/custom/scripting/exec/ValueWrapper.java:149-153 | decimal digits, no leading zero |
| `JavaLang.ParseInt` | src/main/java/hr/fer/zemris/java/custom/scripting/exec/ValueWrapper.java:149-153 | `Integer.parseInt` accepts no '.', no 'E' and no empty string |
| `JavaLang.DigitsValueOfNatToString` | src/main/java/hr/fer/zemris/java/custom/scripting/exec/ValueWrapper.java:149-153 | the digits written for n read back as n |
| `JavaLang.ParseIntToString` | src/main/java/hr/fer/zemris/java/custom/scripting/exec/ValueWrapper.java:149-153 | `Integer.parseInt(Integer.toString(i)) == i` for every `int` |
| `JavaLang.Trim` | src/main/java/hr/fer/zemris/java/custom/scripting/exec/ValueWrapper.java:141-154 | `trim` never lengthens and leaves no blank at either end |
| `JavaLang.DigitRunEnd` | src/main/java/hr/fer/zemris/java/custom/scripting/lexer/SmartScriptLexer.java:373-405 | the end of a run of digits: all digits before it, none at it |
| `JavaLang.ReplaceSkipsPrefix` | src/main/java/hr/fer/zemris/java/webserver/RequestContext.java:205-206 | `String.replace` copies a prefix without the target's first character unchanged |
| `JavaLang.ReplaceIdentity` | src/main/java/hr/fer/zemris/java/webserver/RequestContext.java:205-206 | a text that never holds the target's first character is left alone by `replace` |
| `JavaLang.ReplaceAtFront` | src/main/java/hr/fer/zemris/java/webserver/RequestContext.java:205-206 | an occurrence of the target at the front is substituted and the rest is scanned after it |
| `ValueWrappers.ConvertType` | src/main/java/hr/fer/zemris/java/custom/scripting/exec/ValueWrapper.java:138-162 | conversion succeeds exactly when the value is not a Boolean and a String parses; the result is a Double exactly for a Double or a String holding '.' or 'E' |
| `ValueWrappers.DoCalculation` | src/main/java/hr/fer/zemris/java/custom/scripting/exec/ValueWrapper.java:90-129 | `doCalculation` on objects: both operands converted (first one first), Double arithmetic if either is a Double, wrapping `int` arithmetic otherwise; its properties are the `CalculationFacts` row |
| `ValueWrappers.ObjToString` | src/main/java/hr/fer/zemris/java/custom/scripting/exec/SmartScriptEngine.java:255 | `String.valueOf`/`toString` of a value, null refused; its round trip is the `ObjToStringRoundTrip` row |
| `ValueWrappers.CalculationFacts` | src/main/java/hr/fer/zemris/java/custom/scripting/exec/ValueWrapper.java:90-129 | the first operand's conversion error wins, then the second's; int division by zero is the only other failure; the result is a Double exactly when an operand is; an int result is the exact one modulo 2^32 and equal to it when it fits |
| `ValueWrappers.NumCompare` | src/main/java/hr/fer/zemris/java/custom/scripting/exec/ValueWrapper.java:47-76 | the result is -1, 0 or 1, defined exactly when both operands convert to ints, and its sign is that of the comparison |
| `ValueWrappers.ObjToStringRoundTrip` | src/main/java/hr/fer/zemris/java/custom/scripting/exec/SmartScriptEngine.java:255 | a String's text is itself, an Integer's text parses back to it, and null has no text (NullPointerException) |
| `ValueWrappers.ValueWrapper.constructor` | src/main/java/hr/fer/zemris/java/custom/scripting/exec/ValueWrapper.java:13-15 | the wrapper holds the given object |
| `ValueWrappers.ValueWrapper.GetValue` | src/main/java/hr/fer/zemris/java/custom/scripting/exec/ValueWrapper.java:17-19 | returns the held object |
| `ValueWrappers.ValueWrapper.SetValue` | src/main/java/hr/fer/zemris/java/custom/scripting/exec/ValueWrapper.java:21-23 | the wrapper then holds the new object |
| `ValueWrappers.ValueWrapper.Calculate` | src/main/java/hr/fer/zemris/java/custom/scripting/exec/ValueWrapper.java:90-129 | on success the wrapper holds `doCalculation`'s result, on an exception it is unchanged and the fault is returned |
| `ValueWrappers.ValueWrapper.Add` | src/main/java/hr/fer/zemris/java/custom/scripting/exec/ValueWrapper.java:25-27 | the held value becomes value + inc as `doCalculation` computes it, or the exception is returned and nothing changes |
| `ValueWrappers.ValueWrapper.Subtract` | src/main/java/hr/fer/zemris/java/custom/scripting/exec/ValueWrapper.java:29-31 | the same for value - dec |
| `ValueWrappers.ValueWrapper.Multiply` | src/main/java/hr/fer/zemris/java/custom/scripting/exec/ValueWrapper.java:33-35 | the same for value * mul |
| `ValueWrappers.ValueWrapper.Divide` | src/main/java/hr/fer/zemris/java/custom/scripting/exec/ValueWrapper.java:37-39 | the same for value / div (truncating, int division by zero throws) |
| `ValueWrappers.ValueWrapper.NumCompareWith` | src/main/java/hr/fer/zemris/java/custom/scripting/exec/ValueWrapper.java:47-76 | the comparison of the held value with the argument |
| `ValueWrappers.NullActsAsZero` | src/test/java/hw02b/ValueWrapperTest.java:13-30 | null + null is Integer 0 and null + x is x |
| `ValueWrappers.IntegerStringCoerces` | src/test/java/hw02b/ValueWrapperTest.java:43-50 | "12" + 1 is Integer 13 |
| `ValueWrappers.ExponentLiteralSyntax` | src/test/java/hw02b/ValueWrapperTest.java:33-40 | "1.2E1" is in the syntax `Double.parseDouble` accepts |
| `ValueWrappers.IntegerTextActsAsInteger` | src/main/java/hr/fer/zemris/java/custom/scripting/exec/ValueWrapper.java:149-153 | a String holding an int's decimal text computes and compares exactly like that Integer |
| `ValueWrappers.ExponentStringIsDouble` | src/test/java/hw02b/ValueWrapperTest.java:33-40 | "1.2E1" + 1 is a Double |
| `ValueWrappers.ExponentLiteralConverts` | src/main/java/hr/fer/zemris/java/custom/scripting/exec/ValueWrapper.java:141-148 | "1.2E1" converts to a Double |
| `ValueWrappers.DoubleTextConverts` | src/main/java/hr/fer/zemris/java/custom/scripting/exec/ValueWrapper.java:141-148 | a String in Double syntax holding '.' or 'E' converts to that Double |
| `ValueWrappers.LowerCaseExponentRejected` | src/main/java/hr/fer/zemris/java/custom/scripting/exec/ValueWrapper.java:141-154 | "1e5" goes to `Integer.parseInt`, which throws |
| `ValueWrappers.NonNumbersRejected` | src/test/java/hw02b/ValueWrapperTest.java:53-75 | "Ankica" + 1 throws, and a Boolean on either side throws |
| `ValueWrappers.NumCompareAntisymmetric` | src/main/java/hr/fer/zemris/java/custom/scripting/exec/ValueWrapper.java:47-76 | swapping the operands of an int comparison negates it |
| `ValueWrappers.IntDivisionEdges` | src/main/java/hr/fer/zemris/java/custom/scripting/exec/ValueWrapper.java:112-128 | x / 0 throws ArithmeticException; MIN_VALUE / -1 and MAX_VALUE + 1 wrap to MIN_VALUE |
| `Multistack.MultistackEntry.constructor` | src/main/java/hr/fer/zemris/java/custom/scripting/exec/MultistackEntry.java:8-11 | the node holds the wrapper and its next node, and the chain below it is well formed |
| `Multistack.MultistackEntry.Single` | src/main/java/hr/fer/zemris/java/custom/scripting/exec/MultistackEntry.java:13-15 | a node with nothing below it |
| `Multistack.MultistackEntry.GetValue` | src/main/java/hr/fer/zemris/java/custom/scripting/exec/MultistackEntry.java:17-19 | the node's wrapper |
| `Multistack.MultistackEntry.SetValue` | src/main/java/hr/fer/zemris/java/custom/scripting/exec/MultistackEntry.java:21-23 | the node then holds the given wrapper |
| `Multistack.MultistackEntry.SetValueObject` | src/main/java/hr/fer/zemris/java/custom/scripting/exec/MultistackEntry.java:25-27 | the node then holds a new wrapper around the object |
| `Multistack.MultistackEntry.GetNext` | src/main/java/hr/fer/zemris/java/custom/scripting/exec/MultistackEntry.java:29-31 | the node below |
| `Multistack.ObjectMultistack.constructor` | src/main/java/hr/fer/zemris/java/custom/scripting/exec/ObjectMultistack.java:14 | no name has a stack |
| `Multistack.ObjectMultistack.Push` | src/main/java/hr/fer/zemris/java/custom/scripting/exec/ObjectMultistack.java:23-36 | a new node holding the wrapper is the top of the name's stack, above the old ones; every other stack is unchanged |
| `Multistack.ObjectMultistack.Pop` | src/main/java/hr/fer/zemris/java/custom/scripting/exec/ObjectMultistack.java:46-60 | the top wrapper is returned and removed, the name vanishes when its stack empties, a name with no stack is IllegalArgumentException("Key does not exist"), and no other stack changes |
| `Multistack.ObjectMultistack.Peek` | src/main/java/hr/fer/zemris/java/custom/scripting/exec/ObjectMultistack.java:69-77 | the top wrapper itself, or IllegalArgumentException |
| `Multistack.ObjectMultistack.IsEmpty` | src/main/java/hr/fer/zemris/java/custom/scripting/exec/ObjectMultistack.java:83-86 | true exactly when the name's stack is empty |
| `Multistack.YearArithmetic` | src/test/java/hw02b/ObjectMultistackTest.java:36-41 | 2000 + "5" is 2005, + 5 is 2010, + 5.0 is a Double |
| `Multistack.AddFiveThreeWays` | src/test/java/hw02b/ObjectMultistackTest.java:36-41 | adding "5", 5 and 5.0 to 2000 through one wrapper leaves the Double 2010 + 5.0 |
| `Multistack.ShadowUpdateAndPop` | src/test/java/hw02b/ObjectMultistackTest.java:23-35 | a pushed wrapper updated through peek is seen by the next peek, and popping it restores the stacks |
| `Multistack.YearAndPrice` | src/test/java/hw02b/ObjectMultistackTest.java:13-42 | the scenario with two names: the shadowing value, the price and the year come out as the test expects |
| `Elements.ZeroRunEnd` | src/main/java/hr/fer/zemris/java/custom/scripting/elems/ElementConstantDouble.java:40-42 | the end of a run of '0's |
| `Elements.DoubleText` | src/main/java/hr/fer/zemris/java/custom/scripting/elems/ElementConstantDouble.java:40-42 | `Double.toString` of a decimal literal holds a '.' |
| `Elements.AsText` | src/main/java/hr/fer/zemris/java/custom/scripting/elems/ElementConstantInteger.java:40-42 | an int constant's text parses back to its value; a double constant's text holds a '.' |
| `Elements.PlainDoubleText` | src/main/java/hr/fer/zemris/java/custom/scripting/elems/ElementConstantDouble.java:40-42 | 07.50 is written 7.5 |
| `Elements.NegativeZeroText` | src/main/java/hr/fer/zemris/java/custom/scripting/elems/ElementConstantDouble.java:40-42 | -0.0 keeps its sign |
| `Elements.LargeDoubleText` | src/main/java/hr/fer/zemris/java/custom/scripting/elems/ElementConstantDouble.java:40-42 | 10000000.0 is written 1.0E7 |
| `Elements.SmallDoubleText` | src/main/java/hr/fer/zemris/java/custom/scripting/elems/ElementConstantDouble.java:40-42 | 0.0001 is written 1.0E-4 |
| `LexerSpec.BlanksEnd` | src/main/java/hr/fer/zemris/java/custom/scripting/lexer/SmartScriptLexer.java:71-86 | `skipBlanks` stops at the first non-blank after a run of blanks |
| `LexerSpec.VariableName` | src/main/java/hr/fer/zemris/java/custom/scripting/lexer/SmartScriptLexer.java:292-327 | the name is the longest run of name characters; a first character that is not a letter is "Invalid variable name" |
| `LexerSpec.TagName` | src/main/java/hr/fer/zemris/java/custom/scripting/lexer/SmartScriptLexer.java:337-362 | the tag name is "=" or a non-empty upper-case name; reading past the end after blanks is IndexOutOfBounds |
| `LexerSpec.NumberEnds` | src/main/java/hr/fer/zemris/java/custom/scripting/lexer/SmartScriptLexer.java:373-405 | the ends of a number's digits lie in order inside the text |
| `LexerSpec.Number` | src/main/java/hr/fer/zemris/java/custom/scripting/lexer/SmartScriptLexer.java:373-405 | the number's end lies inside the text |
| `LexerSpec.NumberScanEnd` | src/main/java/hr/fer/zemris/java/custom/scripting/lexer/SmartScriptLexer.java:373-405 | a number ends at its first non-digit (or second '.'), and a following space is consumed |
| `LexerSpec.QuotedString` | src/main/java/hr/fer/zemris/java/custom/scripting/lexer/SmartScriptLexer.java:180-221 | a string token ends just after its closing quote |
| `LexerSpec.EscapedPairIsCharSum` | src/main/java/hr/fer/zemris/java/custom/scripting/lexer/SmartScriptLexer.java:193-213 | an escape inside a string appends the decimal text of the sum of the two characters' codes |
| `LexerSpec.BasicText` | src/main/java/hr/fer/zemris/java/custom/scripting/lexer/SmartScriptLexer.java:110-159 | text runs to the end or to the next "{$", and is non-empty when it does not start at one |
| `LexerSpec.TagToken` | src/main/java/hr/fer/zemris/java/custom/scripting/lexer/SmartScriptLexer.java:176-276 | a token read in a tag moves the index forward and is never the EOF operator |
| `LexerSpec.Step` | src/main/java/hr/fer/zemris/java/custom/scripting/lexer/SmartScriptLexer.java:97-282 | every successful `nextToken` yields a token and strictly decreases what is left to read; after EOF it throws "There is no next token" |
| `LexerSpec.TokensFrom` | src/main/java/hr/fer/zemris/java/custom/scripting/lexer/SmartScriptLexer.java:48-54 | the token stream of a text ends with EOF |
| `Lexer.SmartScriptLexer.constructor` | src/main/java/hr/fer/zemris/java/custom/scripting/lexer/SmartScriptLexer.java:32-39 | a lexer at index 0 in the BASIC state with no token |
| `Lexer.SmartScriptLexer.NextToken` | src/main/java/hr/fer/zemris/java/custom/scripting/lexer/SmartScriptLexer.java:48-54 | returns the token `Step` gives and moves the lexer to `Step`'s state, or returns its exception |
| `Lexer.SmartScriptLexer.GetToken` | src/main/java/hr/fer/zemris/java/custom/scripting/lexer/SmartScriptLexer.java:62-65 | the current token |
| `Lexer.SmartScriptLexer.SkipBlanks` | src/main/java/hr/fer/zemris/java/custom/scripting/lexer/SmartScriptLexer.java:71-86 | the index moves to `BlanksEnd` |
| `Lexer.SmartScriptLexer.ExtractNextToken` | src/main/java/hr/fer/zemris/java/custom/scripting/lexer/SmartScriptLexer.java:97-282 | the fields become `Step`'s state, or the exception is `Step`'s |
| `Lexer.SmartScriptLexer.ExtractText` | src/main/java/hr/fer/zemris/java/custom/scripting/lexer/SmartScriptLexer.java:110-159 | the BASIC branch does what `Step` says |
| `Lexer.SmartScriptLexer.ExtractInTag` | src/main/java/hr/fer/zemris/java/custom/scripting/lexer/SmartScriptLexer.java:162-277 | the INTAG branch does what `Step` says |
| `Lexer.SmartScriptLexer.ReadTagToken` | src/main/java/hr/fer/zemris/java/custom/scripting/lexer/SmartScriptLexer.java:176-276 | the token after blanks is `TagToken`'s |
| `Lexer.SmartScriptLexer.ReadVariableToken` | src/main/java/hr/fer/zemris/java/custom/scripting/lexer/SmartScriptLexer.java:223-229 | a variable token as `TagToken` reads it |
| `Lexer.SmartScriptLexer.ReadNumberToken` | src/main/java/hr/fer/zemris/java/custom/scripting/lexer/SmartScriptLexer.java:231-249 | a number token (Integer or Double), or `parseInt`'s exception, as `TagToken` says |
| `Lexer.SmartScriptLexer.ReadString` | src/main/java/hr/fer/zemris/java/custom/scripting/lexer/SmartScriptLexer.java:180-221 | a string token as `QuotedString` reads it |
| `Lexer.SmartScriptLexer.LookForVariableName` | src/main/java/hr/fer/zemris/java/custom/scripting/lexer/SmartScriptLexer.java:292-327 | the name and the index `VariableName` gives |
| `Lexer.SmartScriptLexer.LookForTagName` | src/main/java/hr/fer/zemris/java/custom/scripting/lexer/SmartScriptLexer.java:337-362 | the name and the index `TagName` gives |
| `Lexer.SmartScriptLexer.LookForNumber` | src/main/java/hr/fer/zemris/java/custom/scripting/lexer/SmartScriptLexer.java:373-405 | the lexeme and the index `Number` gives |
| `LexerProperties.EscapeText` | src/main/java/hr/fer/zemris/java/custom/scripting/lexer/SmartScriptLexer.java:128-150 | escaping never shortens text and starts with a backslash or the text's first character |
| `LexerProperties.BasicTextReadsEscaped` | src/main/java/hr/fer/zemris/java/custom/scripting/lexer/SmartScriptLexer.java:110-159 | escaped text is read back exactly, ending right after it |
| `LexerProperties.TextTokenRoundTrip` | src/main/java/hr/fer/zemris/java/custom/scripting/lexer/SmartScriptLexer.java:110-159 | any non-empty text, escaped, is read back as one String token with that text |
| `LexerProperties.BadTextEscapeRejected` | src/main/java/hr/fer/zemris/java/custom/scripting/lexer/SmartScriptLexer.java:137 | "a\b" is "Invalid escaping" |
| `LexerProperties.QuoteBody` | src/main/java/hr/fer/zemris/java/custom/scripting/lexer/SmartScriptLexer.java:180-221 | the inside of a quoted string is at least as long as the text |
| `LexerProperties.QuotedStringReadsBody` | src/main/java/hr/fer/zemris/java/custom/scripting/lexer/SmartScriptLexer.java:180-221 | a quoted string is read back as its text, the closing quote consumed |
| `LexerProperties.QuoteEscapesAddCodes` | src/main/java/hr/fer/zemris/java/custom/scripting/lexer/SmartScriptLexer.java:193-213 | `\"` gives "126" and `\\` gives "184", not a quote or a backslash |
| `LexerProperties.UnclosedStringRejected` | src/main/java/hr/fer/zemris/java/custom/scripting/lexer/SmartScriptLexer.java:220 | a string without its closing quote is "String was not closed" |
| `LexerProperties.IntegerTokenRoundTrip` | src/main/java/hr/fer/zemris/java/custom/scripting/lexer/SmartScriptLexer.java:231-249 | every `int`, written by `Integer.toString` and followed by a space, is read back as that Integer constant |
| `LexerProperties.IntegerLexemeParsed` | src/main/java/hr/fer/zemris/java/custom/scripting/lexer/SmartScriptLexer.java:245 | the lexeme `Integer.toString` wrote is parsed back by `parseInt` |
| `LexerProperties.IntegerLexemeRead` | src/main/java/hr/fer/zemris/java/custom/scripting/lexer/SmartScriptLexer.java:373-405 | a sign or digit, then digits, then a space, is the lexeme `lookForNumber` reads |
| `LexerProperties.NumberTokenIsInteger` | src/main/java/hr/fer/zemris/java/custom/scripting/lexer/SmartScriptLexer.java:243-247 | a lexeme `parseInt` accepts becomes an Integer constant |
| `LexerProperties.IntegerOverflowRejected` | src/main/java/hr/fer/zemris/java/custom/scripting/lexer/SmartScriptLexer.java:245 | 2147483648 in a tag is NumberFormatException |
| `LexerProperties.TokensFromStep` | src/main/java/hr/fer/zemris/java/custom/scripting/lexer/SmartScriptLexer.java:48-54 | the stream is the next token followed by the rest |
| `LexerProperties.TokensFromLast` | src/main/java/hr/fer/zemris/java/custom/scripting/lexer/SmartScriptLexer.java:99-107 | the EOF token ends the stream |
| `LexerProperties.TrailingBlankInTagFails` | src/main/java/hr/fer/zemris/java/custom/scripting/lexer/SmartScriptLexer.java:176-178 | "{$=" lexes to "{$", "=", EOF, but "{$= " reads past the end |
| `LexerProperties.TagNamedEofEndsStream` | src/main/java/hr/fer/zemris/java/custom/scripting/lexer/SmartScriptLexer.java:355 | a tag name "eof" is upper-cased into the EOF operator, which ends the stream |
| `Nodes.ToTree` | src/main/java/hr/fer/zemris/java/custom/scripting/nodes/Node.java:32-63 | a node's subtree is a document or a loop exactly when the node is, with as many children as its child list |
| `Nodes.NodeArena.constructor` | src/main/java/hr/fer/zemris/java/custom/scripting/nodes/Node.java:18 | no nodes yet |
| `Nodes.NodeArena.NewNode` | src/main/java/hr/fer/zemris/java/custom/scripting/nodes/Node.java:18 | a new node without a child collection, at the next index |
| `Nodes.NodeArena.AddChildNode` | src/main/java/hr/fer/zemris/java/custom/scripting/nodes/Node.java:32-38 | the collection is allocated if it was not and the child appended; a null child is rejected after the allocation; no other node changes |
| `Nodes.NodeArena.NumberOfChildren` | src/main/java/hr/fer/zemris/java/custom/scripting/nodes/Node.java:46-51 | the number of children, 0 while the collection is unallocated |
| `Nodes.NodeArena.GetChild` | src/main/java/hr/fer/zemris/java/custom/scripting/nodes/Node.java:61-63 | the child at a valid index; NullPointerException with no collection, IndexOutOfBounds for a bad index |
| `Nodes.ChildListLifecycle` | src/main/java/hr/fer/zemris/java/custom/scripting/nodes/Node.java:32-63 | a new node has 0 children and `getChild(0)` throws NullPointerException; after one add it has 1 and `getChild(0)` is that child |
| `Nodes.AddChildKeepsTree` | src/main/java/hr/fer/zemris/java/custom/scripting/nodes/Node.java:32-38 | adding a later node as a child keeps the nodes a tree |
| `Nodes.SubtreesUnchanged` | src/main/java/hr/fer/zemris/java/custom/scripting/nodes/Node.java:32-38 | nodes after the parent keep their subtrees |
| `ParserSpec.PushStack` | src/main/java/hr/fer/zemris/java/custom/collections/ObjectStack.java:54-56 | push puts the node on top, and the capacity covers the new size |
| `ParserSpec.PopStack` | src/main/java/hr/fer/zemris/java/custom/collections/ObjectStack.java:66-75 | pop succeeds exactly on a non-empty stack that does not fill its backing array, and drops the top |
| `ParserSpec.AddChild` | src/main/java/hr/fer/zemris/java/custom/scripting/nodes/Node.java:32-38 | the child is appended to the parent's child list and nothing else changes |
| `ParserSpec.Attach` | src/main/java/hr/fer/zemris/java/custom/scripting/parser/SmartScriptParser.java:86-88 | a new node becomes the last child of the stack's top; an empty stack is an error |
| `ParserSpec.OpenFor` | src/main/java/hr/fer/zemris/java/custom/scripting/parser/SmartScriptParser.java:84-112 | an opened loop leaves the lexer inside the text with a token, further on |
| `ParserSpec.ForTag` | src/main/java/hr/fer/zemris/java/custom/scripting/parser/SmartScriptParser.java:66-114 | a FOR tag leaves the lexer inside the text with a token, further on |
| `ParserSpec.EndTag` | src/main/java/hr/fer/zemris/java/custom/scripting/parser/SmartScriptParser.java:116-130 | the same for END |
| `ParserSpec.EchoElements` | src/main/java/hr/fer/zemris/java/custom/scripting/parser/SmartScriptParser.java:136-157 | the echo elements run up to "$}" and extend what was collected |
| `ParserSpec.EchoTag` | src/main/java/hr/fer/zemris/java/custom/scripting/parser/SmartScriptParser.java:131-164 | the same for an echo tag |
| `ParserSpec.TextRun` | src/main/java/hr/fer/zemris/java/custom/scripting/parser/SmartScriptParser.java:169-184 | the text loop only extends the text and stops at a tag or EOF |
| `ParserSpec.TextTag` | src/main/java/hr/fer/zemris/java/custom/scripting/parser/SmartScriptParser.java:169-184 | the same for text |
| `ParserSpec.Iteration` | src/main/java/hr/fer/zemris/java/custom/scripting/parser/SmartScriptParser.java:62-187 | one pass consumes input |
| `ParserSpec.ParseLoop` | src/main/java/hr/fer/zemris/java/custom/scripting/parser/SmartScriptParser.java:62-187 | the loop ends at EOF |
| `ParserSpec.ParseInput` | src/main/java/hr/fer/zemris/java/custom/scripting/parser/SmartScriptParser.java:54-188 | a successful parse keeps the lexer and the stack in range |
| `ParserSpec.Parse` | src/main/java/hr/fer/zemris/java/custom/scripting/parser/SmartScriptParser.java:36-45 | a null body is NullPointerException |
| `Parser.SmartScriptParser.constructor` | src/main/java/hr/fer/zemris/java/custom/scripting/parser/SmartScriptParser.java:36-45 | a document node with no children |
| `Parser.SmartScriptParser.GetDocumentNode` | src/main/java/hr/fer/zemris/java/custom/scripting/parser/SmartScriptParser.java:195-197 | the root |
| `Parser.SmartScriptParser.AttachNode` | src/main/java/hr/fer/zemris/java/custom/scripting/parser/SmartScriptParser.java:86-88 | the nodes become `Attach`'s |
| `Parser.SmartScriptParser.OpenLoop` | src/main/java/hr/fer/zemris/java/custom/scripting/parser/SmartScriptParser.java:84-112 | the lexer, stack and nodes become `OpenFor`'s, or the exception is its |
| `Parser.SmartScriptParser.ForTag` | src/main/java/hr/fer/zemris/java/custom/scripting/parser/SmartScriptParser.java:66-114 | the state becomes `ParserSpec.ForTag`'s, or the exception is its |
| `Parser.SmartScriptParser.EndTag` | src/main/java/hr/fer/zemris/java/custom/scripting/parser/SmartScriptParser.java:116-130 | the state becomes `ParserSpec.EndTag`'s |
| `Parser.SmartScriptParser.EchoTag` | src/main/java/hr/fer/zemris/java/custom/scripting/parser/SmartScriptParser.java:131-164 | the state becomes `ParserSpec.EchoTag`'s |
| `Parser.SmartScriptParser.TextTag` | src/main/java/hr/fer/zemris/java/custom/scripting/parser/SmartScriptParser.java:169-184 | the state becomes `ParserSpec.TextTag`'s |
| `Parser.SmartScriptParser.ParseOne` | src/main/java/hr/fer/zemris/java/custom/scripting/parser/SmartScriptParser.java:62-187 | one pass does what `Iteration` says |
| `Parser.SmartScriptParser.ParseInput` | src/main/java/hr/fer/zemris/java/custom/scripting/parser/SmartScriptParser.java:54-188 | the nodes and the lexer become `ParserSpec.ParseInput`'s, or the exception is its |
| `Parser.NewParser` | src/main/java/hr/fer/zemris/java/custom/scripting/parser/SmartScriptParser.java:36-45 | the parser holds the nodes `Parse` gives, or the exception is `Parse`'s |
| `ParserProperties.GrowsTransitive` | src/main/java/hr/fer/zemris/java/custom/scripting/parser/SmartScriptParser.java:54-188 | growth of the node set composes |
| `ParserProperties.AppendKeepsSubtree` | src/main/java/hr/fer/zemris/java/custom/scripting/nodes/Node.java:32-38 | adding a node leaves every existing subtree as it was |
| `ParserProperties.AppendLeafWellFormed` | src/main/java/hr/fer/zemris/java/custom/scripting/nodes/Node.java:32-38 | a childless node may be added to a tree |
| `ParserProperties.AddChildKeepsShape` | src/main/java/hr/fer/zemris/java/custom/scripting/nodes/Node.java:32-38 | adding a child to a container keeps the tree shape |
| `ParserProperties.AttachGrows` | src/main/java/hr/fer/zemris/java/custom/scripting/parser/SmartScriptParser.java:86-88 | attaching only grows the nodes |
| `ParserProperties.AttachKeepsShape` | src/main/java/hr/fer/zemris/java/custom/scripting/parser/SmartScriptParser.java:86-88 | attaching to a stack of containers keeps the shape |
| `ParserProperties.AttachKeepsTreeShape` | src/main/java/hr/fer/zemris/java/custom/scripting/parser/SmartScriptParser.java:86-88 | attaching keeps the nodes a tree |
| `ParserProperties.AttachAddsSubtree` | src/main/java/hr/fer/zemris/java/custom/scripting/parser/SmartScriptParser.java:86-88 | the attached node appears as a subtree of the top |
| `ParserProperties.IterationKeepsShape` | src/main/java/hr/fer/zemris/java/custom/scripting/parser/SmartScriptParser.java:62-187 | one pass keeps the tree shape and only grows the nodes |
| `ParserProperties.OpenForKeepsShape` | src/main/java/hr/fer/zemris/java/custom/scripting/parser/SmartScriptParser.java:84-112 | the same for opening a loop |
| `ParserProperties.ForTagKeepsShape` | src/main/java/hr/fer/zemris/java/custom/scripting/parser/SmartScriptParser.java:66-114 | the same for a FOR tag |
| `ParserProperties.EndTagKeepsShape` | src/main/java/hr/fer/zemris/java/custom/scripting/parser/SmartScriptParser.java:116-130 | the same for END |
| `ParserProperties.EchoTagKeepsShape` | src/main/java/hr/fer/zemris/java/custom/scripting/parser/SmartScriptParser.java:131-164 | the same for an echo tag |
| `ParserProperties.AttachKeepsState` | src/main/java/hr/fer/zemris/java/custom/scripting/parser/SmartScriptParser.java:86-88 | attaching a checked node succeeds and keeps the state's shape |
| `ParserProperties.ParseLoopKeepsShape` | src/main/java/hr/fer/zemris/java/custom/scripting/parser/SmartScriptParser.java:62-187 | the whole loop keeps the shape and only grows the nodes |
| `ParserProperties.ParseBuildsTree` | src/main/java/hr/fer/zemris/java/custom/scripting/parser/SmartScriptParser.java:36-188 | a parsed document is a tree rooted at node 0, the only document node, and only FOR and document nodes have children |
| `ParserExamples.AttachToRoot` | src/main/java/hr/fer/zemris/java/custom/scripting/parser/SmartScriptParser.java:159-160 | the first node is the document's only child |
| `ParserExamples.EndTokens` | src/main/java/hr/fer/zemris/java/custom/scripting/lexer/SmartScriptLexer.java:97-282 | "{$END$}" lexes to "{$", END, "$}", EOF |
| `ParserExamples.TooManyEnds` | src/main/java/hr/fer/zemris/java/custom/scripting/parser/SmartScriptParser.java:116-128 | an END with no open FOR is "Too many ENDS" |
| `ParserExamples.TagNameStep` | src/main/java/hr/fer/zemris/java/custom/scripting/lexer/SmartScriptLexer.java:165-171 | after "{$" the tag name comes as an operator |
| `ParserExamples.VariableToken` | src/main/java/hr/fer/zemris/java/custom/scripting/lexer/SmartScriptLexer.java:223-229 | a letter after a blank is a variable token |
| `ParserExamples.ForLoopOpened` | src/main/java/hr/fer/zemris/java/custom/scripting/parser/SmartScriptParser.java:84-93 | the loop of "{$FOR i i i$}" is attached and pushed |
| `ParserExamples.ForTagOpensLoop` | src/main/java/hr/fer/zemris/java/custom/scripting/parser/SmartScriptParser.java:66-93 | the FOR tag of "{$FOR i i i$}" opens the loop |
| `ParserExamples.ThreeArgumentFor` | src/main/java/hr/fer/zemris/java/custom/scripting/parser/SmartScriptParser.java:84-93 | a variable, two arguments and "$}" open a loop without a step |
| `ParserExamples.UnclosedForAccepted` | src/main/java/hr/fer/zemris/java/custom/scripting/parser/SmartScriptParser.java:54-188 | a FOR without END parses, its loop the document's child |
| `ParserExamples.SingleTagParse` | src/main/java/hr/fer/zemris/java/custom/scripting/parser/SmartScriptParser.java:54-188 | a one-tag document parses to the nodes that tag builds |
| `ParserExamples.EchoTokens` | src/main/java/hr/fer/zemris/java/custom/scripting/lexer/SmartScriptLexer.java:97-282 | "{$= i$}" lexes to "{$", "=", i, "$}", EOF |
| `ParserExamples.EchoTagOfVariable` | src/main/java/hr/fer/zemris/java/custom/scripting/parser/SmartScriptParser.java:131-164 | the echo tag of "{$= i$}" |
| `ParserExamples.EchoHoldsTokensAfterName` | src/main/java/hr/fer/zemris/java/custom/scripting/parser/SmartScriptParser.java:131-164 | an echo node holds the tokens after its name, not the name |
| `ParserExamples.EndAtFullStackFails` | src/main/java/hr/fer/zemris/java/custom/scripting/parser/SmartScriptParser.java:116-130 | an END on a stack that fills its backing array fails in pop before the END checks |
| `Documents.EchoElementsText` | src/main/java/hr/fer/zemris/java/custom/scripting/nodes/DocumentNode.java:56-69 | no elements render as nothing; otherwise the text ends in a space |
| `Documents.VisitChildrenAppend` | src/main/java/hr/fer/zemris/java/custom/scripting/nodes/DocumentNode.java:43-86 | rendering distributes over joining child lists |
| `Documents.AppendChildRendering` | src/main/java/hr/fer/zemris/java/custom/scripting/nodes/DocumentNode.java:32-38 | a new last child appends its rendering |
| `Documents.TextChildrenVerbatim` | src/main/java/hr/fer/zemris/java/custom/scripting/nodes/DocumentNode.java:52-55 | a document of text nodes serialises to their texts, in order |
| `Documents.EchoRendering` | src/main/java/hr/fer/zemris/java/custom/scripting/nodes/DocumentNode.java:56-69 | the echo tag of `i`, `"a b"` and `+` renders as `{$= i "a b" + $}`: each element followed by a space, the string quoted |
| `Documents.EchoSampleText` | src/main/java/hr/fer/zemris/java/custom/scripting/nodes/DocumentNode.java:60-67 | the elements of that tag, each followed by a space |
| `Documents.ForRendering` | src/main/java/hr/fer/zemris/java/custom/scripting/nodes/DocumentNode.java:70-84 | `FOR i 1 n` renders with its step only when it has one, followed by the body's rendering and `{$END$}` |
| `Documents.ForHeader` | src/main/java/hr/fer/zemris/java/custom/scripting/nodes/DocumentNode.java:70-79 | the opening tag of a loop with and without its step |
| `Documents.EqualsIsEquivalence` | src/main/java/hr/fer/zemris/java/custom/scripting/nodes/DocumentNode.java:33-41 | on documents, equals is reflexive, symmetric and transitive, holds exactly when the serialisations are equal, and is false for null |
| `Documents.EqualsIgnoresStructure` | src/main/java/hr/fer/zemris/java/custom/scripting/nodes/DocumentNode.java:25-41 | two text nodes equal one holding both texts; a text that looks like a tag equals the tag |
| `Documents.NestedDocumentIgnored` | src/main/java/hr/fer/zemris/java/custom/scripting/nodes/DocumentNode.java:49-86 | a document node among the children matches none of the three branches and contributes nothing |
| `Documents.Render` | src/main/java/hr/fer/zemris/java/custom/scripting/nodes/DocumentNode.java:49-86 | one child's contribution: a text verbatim, an echo tag, a FOR tag around its body, nothing for a nested document; stated by the `EchoRendering`, `ForRendering` and `NestedDocumentIgnored` rows |
| `Documents.VisitChildren` | src/main/java/hr/fer/zemris/java/custom/scripting/nodes/DocumentNode.java:47-86 | the children's contributions in index order; stated by the `VisitChildrenAppend` and `AppendChildRendering` rows |
| `Documents.VisitNode` | src/main/java/hr/fer/zemris/java/custom/scripting/nodes/DocumentNode.java:43-88 | `visitNode` of a document or loop node, "" for a childless node; stated by the `TextChildrenVerbatim` row |
| `Documents.ToString` | src/main/java/hr/fer/zemris/java/custom/scripting/nodes/DocumentNode.java:25-28 | `toString` is `visitNode(this)` |
| `Documents.Equals` | src/main/java/hr/fer/zemris/java/custom/scripting/nodes/DocumentNode.java:33-41 | `equals`: a document with the same serialisation; stated by the `EqualsIsEquivalence` and `EqualsIgnoresStructure` rows |
| `RequestContexts.RCCookie.constructor` | src/main/java/hr/fer/zemris/java/webserver/RequestContext.java:219-225 | the cookie holds the five given fields |
| `RequestContexts.RCCookie.WithDomain` | src/main/java/hr/fer/zemris/java/webserver/RequestContext.java:227-229 | no path |
| `RequestContexts.RCCookie.WithMaxAge` | src/main/java/hr/fer/zemris/java/webserver/RequestContext.java:231-233 | no domain and no path |
| `RequestContexts.RCCookie.Plain` | src/main/java/hr/fer/zemris/java/webserver/RequestContext.java:235-237 | no max age, domain or path |
| `RequestContexts.ReplaceAllFour` | src/main/java/hr/fer/zemris/java/webserver/RequestContext.java:205-206 | the four substitutions are four `replace` calls, first pair first |
| `RequestContexts.HeaderIsChain` | src/main/java/hr/fer/zemris/java/webserver/RequestContext.java:177-212 | the header is the assembled template with the four placeholders replaced in source order |
| `RequestContexts.IndexOf` | src/main/java/hr/fer/zemris/java/webserver/RequestContext.java:82-85 | the first occurrence of the cookie, by identity |
| `RequestContexts.RemoveFirstCutsFirst` | src/main/java/hr/fer/zemris/java/webserver/RequestContext.java:82-85 | removal leaves the list alone when the cookie is absent, and otherwise cuts out exactly its first occurrence |
| `RequestContexts.RemoveFirstTakesOne` | src/main/java/hr/fer/zemris/java/webserver/RequestContext.java:82-85 | removal takes away one occurrence and nothing else |
| `RequestContexts.Payloads` | src/main/java/hr/fer/zemris/java/webserver/RequestContext.java:143-173 | what writes add after the header is never a header |
| `RequestContexts.CookieLine` | src/main/java/hr/fer/zemris/java/webserver/RequestContext.java:190-203 | one cookie's Set-Cookie line, optional attributes only when present; its brace-freedom is the `CookieLineBraceFree` row |
| `RequestContexts.Template` | src/main/java/hr/fer/zemris/java/webserver/RequestContext.java:180-204 | the header text before substitution; its shape is the `TemplateIsLayout` and `HeaderLayout` rows |
| `RequestContexts.Header` | src/main/java/hr/fer/zemris/java/webserver/RequestContext.java:177-212 | the four `replace` calls over the template; stated by the `HeaderIsChain` and `HeaderLayout` rows |
| `RequestContexts.Latin1` | src/main/java/hr/fer/zemris/java/webserver/RequestContext.java:209-211 | the ISO-8859-1 bytes of the header; stated by the `Latin1Bytes` and `Latin1RoundTrip` rows |
| `RequestContexts.EmitHeader` | src/main/java/hr/fer/zemris/java/webserver/RequestContext.java:144-147 | the first write's header: charset looked up, flag set, header bytes appended; stated by the `HeaderWrittenOnce` row |
| `RequestContexts.RemoveFirst` | src/main/java/hr/fer/zemris/java/webserver/RequestContext.java:82-85 | `List.remove(Object)` on the cookies; stated by the `RemoveFirstCutsFirst` and `RemoveFirstTakesOne` rows |
| `RequestContexts.Unless` | src/main/java/hr/fer/zemris/java/webserver/RequestContext.java:52-85 | a header setter refused with "Cannot change now." once the header is out; stated by the `SettersRefusedAfterWrite` row |
| `RequestContexts.Apply` | src/main/java/hr/fer/zemris/java/webserver/RequestContext.java:143-173 | one write as a state transition; stated by the `ApplyStep`, `WritesKeepSettings` and `HeaderWrittenOnce` rows |
| `RequestContexts.RequestContext.constructor` | src/main/java/hr/fer/zemris/java/webserver/RequestContext.java:34-40 | UTF-8, 200 OK, text/html, no length, the given maps and cookies, an empty temporary map (the field initializer at RequestContext.java:26), nothing written |
| `RequestContexts.RequestContext.WithSession` | src/main/java/hr/fer/zemris/java/webserver/RequestContext.java:42-50 | the same defaults, with the temporary parameters and session id given |
| `RequestContexts.RequestContext.SetEncoding` | src/main/java/hr/fer/zemris/java/webserver/RequestContext.java:52-55 | refused with "Cannot change now." once the header is out, else the encoding is set |
| `RequestContexts.RequestContext.SetStatusCode` | src/main/java/hr/fer/zemris/java/webserver/RequestContext.java:57-60 | the same for the status code |
| `RequestContexts.RequestContext.SetStatusText` | src/main/java/hr/fer/zemris/java/webserver/RequestContext.java:62-65 | the same for the status text |
| `RequestContexts.RequestContext.SetMimeType` | src/main/java/hr/fer/zemris/java/webserver/RequestContext.java:67-70 | the same for the MIME type |
| `RequestContexts.RequestContext.SetContentLength` | src/main/java/hr/fer/zemris/java/webserver/RequestContext.java:72-75 | the same for the content length |
| `RequestContexts.RequestContext.AddRCCookie` | src/main/java/hr/fer/zemris/java/webserver/RequestContext.java:77-80 | the same, appending the cookie |
| `RequestContexts.RequestContext.RemoveRCCookie` | src/main/java/hr/fer/zemris/java/webserver/RequestContext.java:82-85 | the same, removing the cookie's first occurrence |
| `RequestContexts.RequestContext.GetOutputCookies` | src/main/java/hr/fer/zemris/java/webserver/RequestContext.java:87-89 | the cookie list |
| `RequestContexts.RequestContext.GetParameter` | src/main/java/hr/fer/zemris/java/webserver/RequestContext.java:91-93 | the parameter, or null exactly when there is none |
| `RequestContexts.RequestContext.GetParameterNames` | src/main/java/hr/fer/zemris/java/webserver/RequestContext.java:95-97 | the parameter names |
| `RequestContexts.RequestContext.GetPersistentParameter` | src/main/java/hr/fer/zemris/java/webserver/RequestContext.java:99-101 | the persistent parameter, or null exactly when there is none |
| `RequestContexts.RequestContext.GetPersistentParameterNames` | src/main/java/hr/fer/zemris/java/webserver/RequestContext.java:103-105 | the persistent names |
| `RequestContexts.RequestContext.SetPersistentParameter` | src/main/java/hr/fer/zemris/java/webserver/RequestContext.java:107-109 | the persistent map gets the entry; nothing else changes |
| `RequestContexts.RequestContext.RemovePersistentParameter` | src/main/java/hr/fer/zemris/java/webserver/RequestContext.java:111-113 | the persistent map loses the name; nothing else changes |
| `RequestContexts.RequestContext.GetTemporaryParameter` | src/main/java/hr/fer/zemris/java/webserver/RequestContext.java:115-117 | the temporary parameter, or null exactly when there is none |
| `RequestContexts.RequestContext.GetTemporaryParameterNames` | src/main/java/hr/fer/zemris/java/webserver/RequestContext.java:119-121 | the temporary names |
| `RequestContexts.RequestContext.GetSessionID` | src/main/java/hr/fer/zemris/java/webserver/RequestContext.java:123-125 | the session id |
| `RequestContexts.RequestContext.SetTemporaryParameter` | src/main/java/hr/fer/zemris/java/webserver/RequestContext.java:127-129 | the temporary map gets the entry; nothing else changes |
| `RequestContexts.RequestContext.RemoveTemporaryParameter` | src/main/java/hr/fer/zemris/java/webserver/RequestContext.java:131-133 | the temporary map loses the name; nothing else changes |
| `RequestContexts.RequestContext.AssembleHeader` | src/main/java/hr/fer/zemris/java/webserver/RequestContext.java:180-204 | the loop over the cookies builds the template |
| `RequestContexts.RequestContext.CreateHeader` | src/main/java/hr/fer/zemris/java/webserver/RequestContext.java:177-212 | the header flag is set and the substituted header goes out as ISO-8859-1 bytes |
| `RequestContexts.RequestContext.EnsureHeader` | src/main/java/hr/fer/zemris/java/webserver/RequestContext.java:144-147 | on the first write the charset is looked up and the header written; later nothing happens |
| `RequestContexts.RequestContext.WriteRange` | src/main/java/hr/fer/zemris/java/webserver/RequestContext.java:153-160 | the header if not out yet, then the range; a bad range throws after the header |
| `RequestContexts.RequestContext.WriteBytes` | src/main/java/hr/fer/zemris/java/webserver/RequestContext.java:143-149 | the same for the whole array |
| `RequestContexts.RequestContext.WriteText` | src/main/java/hr/fer/zemris/java/webserver/RequestContext.java:165-173 | the same for the text in the charset fixed at the first write |
| `Placeholders.JoinAppend` | src/main/java/hr/fer/zemris/java/webserver/RequestContext.java:205-206 | a template's text is the text of its parts |
| `Placeholders.FillAppend` | src/main/java/hr/fer/zemris/java/webserver/RequestContext.java:205-206 | filling a placeholder works part by part |
| `Placeholders.FillWellFormed` | src/main/java/hr/fer/zemris/java/webserver/RequestContext.java:205-206 | filling keeps a template well formed |
| `Placeholders.PlaceholderNotPrefix` | src/main/java/hr/fer/zemris/java/webserver/RequestContext.java:205-206 | no placeholder is a prefix of text starting with a different one |
| `Placeholders.OtherPlaceholderSkipped` | src/main/java/hr/fer/zemris/java/webserver/RequestContext.java:205-206 | `replace` copies a different placeholder unchanged |
| `Placeholders.ReplaceFills` | src/main/java/hr/fer/zemris/java/webserver/RequestContext.java:205-206 | `replace` of a placeholder on a template fills exactly its holes |
| `RequestContextProperties.IntToStringBraceFree` | src/main/java/hr/fer/zemris/java/webserver/RequestContext.java:205 | `Integer.toString` never produces a '{' |
| `RequestContextProperties.CookieLineBraceFree` | src/main/java/hr/fer/zemris/java/webserver/RequestContext.java:190-203 | a cookie line holds a '{' only if a cookie field does |
| `RequestContextProperties.CookieLinesBraceFree` | src/main/java/hr/fer/zemris/java/webserver/RequestContext.java:190-203 | the same for all the cookie lines |
| `RequestContextProperties.JoinLayout` | src/main/java/hr/fer/zemris/java/webserver/RequestContext.java:180-204 | the template segments spell the header layout |
| `RequestContextProperties.FillLayout` | src/main/java/hr/fer/zemris/java/webserver/RequestContext.java:180-204 | filling the layout fills each field and leaves the fixed text alone |
| `RequestContextProperties.TailBraceFree` | src/main/java/hr/fer/zemris/java/webserver/RequestContext.java:186-204 | nothing after Content-Type holds a '{' when no cookie field does |
| `RequestContextProperties.LayoutWellFormed` | src/main/java/hr/fer/zemris/java/webserver/RequestContext.java:180-204 | the layout is a well-formed template when its fields are |
| `RequestContextProperties.FillStep` | src/main/java/hr/fer/zemris/java/webserver/RequestContext.java:205-206 | one `replace` fills that placeholder in every field at once |
| `RequestContextProperties.StatusTemplateLine` | src/main/java/hr/fer/zemris/java/webserver/RequestContext.java:180 | the status line's template |
| `RequestContextProperties.ContentTypeTemplateLine` | src/main/java/hr/fer/zemris/java/webserver/RequestContext.java:181-185 | the Content-Type template, with the charset only for text types |
| `RequestContextProperties.TemplateIsLayout` | src/main/java/hr/fer/zemris/java/webserver/RequestContext.java:180-204 | the assembled header is the layout with the four placeholders as fields |
| `RequestContextProperties.TemplateSegs` | src/main/java/hr/fer/zemris/java/webserver/RequestContext.java:180-204 | the assembled header as template segments |
| `RequestContextProperties.StatusCodeStep` | src/main/java/hr/fer/zemris/java/webserver/RequestContext.java:205 | replacing {statusCode} fills its hole |
| `RequestContextProperties.StatusTextStep` | src/main/java/hr/fer/zemris/java/webserver/RequestContext.java:205 | replacing {statusText}, whatever the status text holds |
| `RequestContextProperties.MimeTypeStep` | src/main/java/hr/fer/zemris/java/webserver/RequestContext.java:206 | replacing {mimeType} after a brace-free status text |
| `RequestContextProperties.MimeTypeTwiceStep` | src/main/java/hr/fer/zemris/java/webserver/RequestContext.java:205-206 | replacing {mimeType} when the status text was that placeholder too |
| `RequestContextProperties.EncodingStep` | src/main/java/hr/fer/zemris/java/webserver/RequestContext.java:206 | replacing {encoding} last |
| `RequestContextProperties.HeaderLayout` | src/main/java/hr/fer/zemris/java/webserver/RequestContext.java:177-212 | with no '{' in the status text, MIME type or cookies, the header is: the status line, Content-Type with a charset exactly for text types, Content-Length exactly when set, the cookie lines in order, and a blank line |
| `RequestContextProperties.StatusTextPlaceholderExpanded` | src/main/java/hr/fer/zemris/java/webserver/RequestContext.java:205-206 | a status text "{mimeType}" comes out as the MIME type, since values are scanned again |
| `RequestContextProperties.ReplaceAllKeepsPrefix` | src/main/java/hr/fer/zemris/java/webserver/RequestContext.java:205-206 | a prefix without a target's first character survives every substitution |
| `RequestContextProperties.TemplateStartsWithVersion` | src/main/java/hr/fer/zemris/java/webserver/RequestContext.java:180 | the template starts with "HTTP/1.1 " |
| `RequestContextProperties.HeaderStartsWithVersion` | src/main/java/hr/fer/zemris/java/webserver/RequestContext.java:177-212 | whatever the fields hold, the header starts with "HTTP/1.1 " |
| `RequestContextProperties.Latin1Bytes` | src/main/java/hr/fer/zemris/java/webserver/RequestContext.java:209 | one byte per character: the character itself below 256, '?' otherwise |
| `RequestContextProperties.Latin1RoundTrip` | src/main/java/hr/fer/zemris/java/webserver/RequestContext.java:209 | header text below 256 reads back from its bytes |
| `RequestContextProperties.WriteBytesIsFullRange` | src/main/java/hr/fer/zemris/java/webserver/RequestContext.java:143-149 | `write(data)` is `write(data, 0, data.length)` |
| `RequestContextProperties.BadRangeAfterHeader` | src/main/java/hr/fer/zemris/java/webserver/RequestContext.java:153-160 | a bad range throws only after the header went out |
| `RequestContextProperties.ApplyStep` | src/main/java/hr/fer/zemris/java/webserver/RequestContext.java:143-173 | one write: the header if it was not out, then its payload; the settings are untouched |
| `RequestContextProperties.WritesKeepSettings` | src/main/java/hr/fer/zemris/java/webserver/RequestContext.java:143-173 | over any run of writes the header flag is set exactly when there was one, the charset stays the first write's, and the settings are untouched |
| `RequestContextProperties.PayloadsAfterHeader` | src/main/java/hr/fer/zemris/java/webserver/RequestContext.java:143-173 | once the header is out, each write adds only its payload |
| `RequestContextProperties.HeaderWrittenOnce` | src/main/java/hr/fer/zemris/java/webserver/RequestContext.java:143-212 | over any run of writes the header goes out exactly once, before the first payload, built from the settings of that moment |
| `RequestContextProperties.SettersRefusedAfterWrite` | src/main/java/hr/fer/zemris/java/webserver/RequestContext.java:52-85 | after any write every header setter is refused and changes nothing |
| `EchoStacks.ScratchPush` | src/main/java/hr/fer/zemris/java/custom/scripting/exec/ObjectMultistack.java:23-36 | the wrapper goes on top of the named stack; other names are untouched |
| `EchoStacks.ScratchPop` | src/main/java/hr/fer/zemris/java/custom/scripting/exec/ObjectMultistack.java:46-60 | the top wrapper, or IllegalArgumentException on an empty stack; other names untouched |
| `EchoStacks.EchoPush` | src/main/java/hr/fer/zemris/java/custom/scripting/exec/SmartScriptEngine.java:80-81 | a push onto the echo tag's stack |
| `EchoStacks.EchoPop` | src/main/java/hr/fer/zemris/java/custom/scripting/exec/SmartScriptEngine.java:90-91 | a pop from the echo tag's stack, failing exactly when it is empty |
| `EchoStacks.Restore` | src/main/java/hr/fer/zemris/java/custom/scripting/exec/SmartScriptEngine.java:156 | a popped wrapper pushed back restores the stack |
| `EchoStacks.PushTwo` | src/main/java/hr/fer/zemris/java/custom/scripting/exec/SmartScriptEngine.java:163-164 | two wrappers pushed in order |
| `EchoStacks.PopTwo` | src/main/java/hr/fer/zemris/java/custom/scripting/exec/SmartScriptEngine.java:90-91 | two pops give the wrapper below the top and the top, and fail exactly with fewer than two |
| `EchoStacks.PopKeeping` | src/main/java/hr/fer/zemris/java/custom/scripting/exec/SmartScriptEngine.java:248 | a pop under one name leaves the other stack as it was |
| `EchoStacks.PushKeeping` | src/main/java/hr/fer/zemris/java/custom/scripting/exec/SmartScriptEngine.java:249 | the same for a push |
| `EchoStacks.Transfer` | src/main/java/hr/fer/zemris/java/custom/scripting/exec/SmartScriptEngine.java:246-250 | one turn of the reversing loop moves the top wrapper to the other name |
| `EchoStacks.ReverseOne` | src/main/java/hr/fer/zemris/java/custom/scripting/exec/SmartScriptEngine.java:246-250 | one turn keeps the reversal invariant |
| `EchoStacks.Reverse` | src/main/java/hr/fer/zemris/java/custom/scripting/exec/SmartScriptEngine.java:244-250 | the reversing loop leaves the values under the second name, the bottom value on top |
| `EchoStacks.PopMirror` | src/main/java/hr/fer/zemris/java/custom/scripting/exec/SmartScriptEngine.java:253 | each pop from the reversed stack gives the lowest value not yet written |
| `EngineSpec.Pop` | src/main/java/hr/fer/zemris/java/custom/scripting/exec/ObjectMultistack.java:46-60 | pop on a scratch stack fails exactly on the empty one and otherwise splits off the top |
| `EngineSpec.PopPush` | src/main/java/hr/fer/zemris/java/custom/scripting/exec/ObjectMultistack.java:23-60 | pop undoes a push |
| `EngineSpec.PopTwice` | src/main/java/hr/fer/zemris/java/custom/scripting/exec/SmartScriptEngine.java:90-91 | two pops take the top, then the value below it |
| `EngineSpec.DupTop` | src/main/java/hr/fer/zemris/java/custom/scripting/exec/SmartScriptEngine.java:152-158 | @dup leaves the top value twice, or is refused on an empty stack |
| `EngineSpec.SwapTop` | src/main/java/hr/fer/zemris/java/custom/scripting/exec/SmartScriptEngine.java:159-165 | @swap exchanges the two top values, or is refused with fewer than two |
| `EngineSpec.GetTop` | src/main/java/hr/fer/zemris/java/custom/scripting/exec/SmartScriptEngine.java:172-225 | a get takes the name from below the default and leaves the looked-up value in its place |
| `EngineSpec.SetTop` | src/main/java/hr/fer/zemris/java/custom/scripting/exec/SmartScriptEngine.java:200-231 | a set takes the name from the top and the value from below it, and stores the value's text |
| `EngineSpec.DelTop` | src/main/java/hr/fer/zemris/java/custom/scripting/exec/SmartScriptEngine.java:207-236 | a remove takes the name from the top |
| `EngineSpec.MimeTop` | src/main/java/hr/fer/zemris/java/custom/scripting/exec/SmartScriptEngine.java:166-171 | @setMimeType takes the text from the top |
| `EngineSpec.ArithOpOf` | src/main/java/hr/fer/zemris/java/custom/scripting/exec/SmartScriptEngine.java:92-115 | an operator is computed exactly when it is +, -, * or / |
| `EngineSpec.OperatorTop` | src/main/java/hr/fer/zemris/java/custom/scripting/exec/SmartScriptEngine.java:87-116 | an operator takes its right operand from the top and its left from below it, and pushes the result |
| `EngineSpec.ElementsFaultFinal` | src/main/java/hr/fer/zemris/java/custom/scripting/exec/SmartScriptEngine.java:76-243 | once an element has thrown, the rest of the tag does not run |
| `EngineSpec.WritePrefixStep` | src/main/java/hr/fer/zemris/java/custom/scripting/exec/SmartScriptEngine.java:251-259 | the values are written one after the other |
| `EngineSpec.WritesFaultFinal` | src/main/java/hr/fer/zemris/java/custom/scripting/exec/SmartScriptEngine.java:251-259 | once a write has failed, later values are not written |
| `EngineSpec.ChildrenFaultFinal` | src/main/java/hr/fer/zemris/java/custom/scripting/exec/SmartScriptEngine.java:268-270 | once a child has thrown, its later siblings do not run |
| `EngineSpec.OperatorStep` | src/main/java/hr/fer/zemris/java/custom/scripting/exec/SmartScriptEngine.java:87-116 | an operator on the echo stack; stated by the `OperatorTop` and `ArithOpOf` rows and by `Engine.SmartScriptEngine.Operator` |
| `EngineSpec.GetResult` | src/main/java/hr/fer/zemris/java/custom/scripting/exec/SmartScriptEngine.java:176-185 | the value a get pushes: the parameter under the name's text, else the default |
| `EngineSpec.GetStep` | src/main/java/hr/fer/zemris/java/custom/scripting/exec/SmartScriptEngine.java:172-225 | @paramGet, @pparamGet and @tparamGet; stated by the `GetTop` row and `Engine.SmartScriptEngine.ParamGet` |
| `EngineSpec.SetStep` | src/main/java/hr/fer/zemris/java/custom/scripting/exec/SmartScriptEngine.java:200-231 | @pparamSet and @tparamSet; stated by the `SetTop` row and `Engine.SmartScriptEngine.ParamSet` |
| `EngineSpec.DelStep` | src/main/java/hr/fer/zemris/java/custom/scripting/exec/SmartScriptEngine.java:207-236 | @pparamDel and @tparamDel; stated by the `DelTop` row and `Engine.SmartScriptEngine.ParamDel` |
| `EngineSpec.SinStep` | src/main/java/hr/fer/zemris/java/custom/scripting/exec/SmartScriptEngine.java:119-135 | @sin up to its failure; see "Left out" |
| `EngineSpec.DecfmtStep` | src/main/java/hr/fer/zemris/java/custom/scripting/exec/SmartScriptEngine.java:136-151 | @decfmt up to its failure; see "Left out" |
| `EngineSpec.DupStep` | src/main/java/hr/fer/zemris/java/custom/scripting/exec/SmartScriptEngine.java:152-158 | @dup; stated by the `DupTop` row |
| `EngineSpec.SwapStep` | src/main/java/hr/fer/zemris/java/custom/scripting/exec/SmartScriptEngine.java:159-165 | @swap; stated by the `SwapTop` row |
| `EngineSpec.MimeStep` | src/main/java/hr/fer/zemris/java/custom/scripting/exec/SmartScriptEngine.java:166-171 | @setMimeType; stated by the `MimeTop` row |
| `EngineSpec.FunctionStep` | src/main/java/hr/fer/zemris/java/custom/scripting/exec/SmartScriptEngine.java:117-240 | a function call by name, an unknown name refused; stated by the `UnknownFunctionRejected` row and `Engine.SmartScriptEngine.Function` |
| `EngineSpec.EchoStep` | src/main/java/hr/fer/zemris/java/custom/scripting/exec/SmartScriptEngine.java:76-243 | one element of an echo tag; stated by `Engine.SmartScriptEngine.Step` and the `ConstantsPushedInOrder` and `EchoVariable` rows |
| `EngineSpec.RunElements` | src/main/java/hr/fer/zemris/java/custom/scripting/exec/SmartScriptEngine.java:76-243 | the elements in order up to the first exception; stated by the `ElementsFaultFinal` and `RunSnoc` rows |
| `EngineSpec.WriteAll` | src/main/java/hr/fer/zemris/java/custom/scripting/exec/SmartScriptEngine.java:244-260 | the values left on the stack written bottom first; stated by the `WritePrefixStep`, `WritesFaultFinal` and `StringsWrittenInOrder` rows |
| `EngineSpec.ExecEcho` | src/main/java/hr/fer/zemris/java/custom/scripting/exec/SmartScriptEngine.java:68-262 | `visitEchoNode`; stated by the `EchoOfConstants` and `EchoArithmeticExamples` rows |
| `EngineSpec.ExecNode` | src/main/java/hr/fer/zemris/java/custom/scripting/exec/SmartScriptEngine.java:28-272 | `visitNode` for each node kind; stated by the `TextWrittenVerbatim` row and `Engine.SmartScriptEngine.VisitNode` |
| `EngineSpec.ExecChildren` | src/main/java/hr/fer/zemris/java/custom/scripting/exec/SmartScriptEngine.java:265-272 | the children in order up to the first exception; stated by the `ChildrenFaultFinal`, `ChildrenAppend` and `TextsWrittenInOrder` rows |
| `EngineSpec.ForLoop` | src/main/java/hr/fer/zemris/java/custom/scripting/exec/SmartScriptEngine.java:38-65 | the FOR loop's turns; stated by the `ForPastEndRunsNothing`, `ForOneToTwo`, `CountToTwo` and `ForIgnoresOuterBinding` rows |
| `Engine.SmartScriptEngine.constructor` | src/main/java/hr/fer/zemris/java/custom/scripting/exec/SmartScriptEngine.java:275-278 | the engine holds the document and the context, with empty loop stacks |
| `Engine.SmartScriptEngine.PushValue` | src/main/java/hr/fer/zemris/java/custom/scripting/exec/SmartScriptEngine.java:79-86 | the value goes on the echo stack in a new wrapper |
| `Engine.SmartScriptEngine.Calculate` | src/main/java/hr/fer/zemris/java/custom/scripting/exec/SmartScriptEngine.java:92-111 | the left wrapper holds `doCalculation`'s result, or the exception is returned |
| `Engine.SmartScriptEngine.PushResult` | src/main/java/hr/fer/zemris/java/custom/scripting/exec/SmartScriptEngine.java:92-111 | the left wrapper, holding the result, goes back on the stack |
| `Engine.SmartScriptEngine.Replace` | src/main/java/hr/fer/zemris/java/custom/scripting/exec/SmartScriptEngine.java:179-185 | a popped wrapper set to a value and pushed back |
| `Engine.SmartScriptEngine.OpCall` | src/main/java/hr/fer/zemris/java/custom/scripting/exec/SmartScriptEngine.java:87-116 | fewer than two values throw; an unknown symbol is "Invalid operator!"; otherwise the result replaces the two operands |
| `Engine.SmartScriptEngine.CalculatePopped` | src/main/java/hr/fer/zemris/java/custom/scripting/exec/SmartScriptEngine.java:92-111 | the rest of an operator after both pops |
| `Engine.SmartScriptEngine.Operator` | src/main/java/hr/fer/zemris/java/custom/scripting/exec/SmartScriptEngine.java:87-116 | the scratch stack becomes `OperatorStep`'s |
| `Engine.SmartScriptEngine.Sin` | src/main/java/hr/fer/zemris/java/custom/scripting/exec/SmartScriptEngine.java:119-135 | @sin fails as `SinStep` does |
| `Engine.SmartScriptEngine.Decfmt` | src/main/java/hr/fer/zemris/java/custom/scripting/exec/SmartScriptEngine.java:136-151 | @decfmt fails as `DecfmtStep` does |
| `Engine.SmartScriptEngine.Dup` | src/main/java/hr/fer/zemris/java/custom/scripting/exec/SmartScriptEngine.java:152-158 | @dup does what `DupStep` says |
| `Engine.SmartScriptEngine.Swap` | src/main/java/hr/fer/zemris/java/custom/scripting/exec/SmartScriptEngine.java:159-165 | @swap does what `SwapStep` says |
| `Engine.SmartScriptEngine.Mime` | src/main/java/hr/fer/zemris/java/custom/scripting/exec/SmartScriptEngine.java:170 | `setMimeType` as the context does it |
| `Engine.SmartScriptEngine.MimeCall` | src/main/java/hr/fer/zemris/java/custom/scripting/exec/SmartScriptEngine.java:166-171 | an empty stack throws and changes nothing; otherwise the popped value's text is set as the MIME type |
| `Engine.SmartScriptEngine.SetMime` | src/main/java/hr/fer/zemris/java/custom/scripting/exec/SmartScriptEngine.java:166-171 | @setMimeType does what `MimeStep` says |
| `Engine.SmartScriptEngine.Lookup` | src/main/java/hr/fer/zemris/java/custom/scripting/exec/SmartScriptEngine.java:172-225 | the parameter under the name's text, else the default (as text except for @pparamGet) |
| `Engine.SmartScriptEngine.Fetch` | src/main/java/hr/fer/zemris/java/custom/scripting/exec/SmartScriptEngine.java:176-185 | the name's wrapper goes back holding what the get yields |
| `Engine.SmartScriptEngine.GetCall` | src/main/java/hr/fer/zemris/java/custom/scripting/exec/SmartScriptEngine.java:172-186 | fewer than two values throw; otherwise the get's result replaces the name and the default |
| `Engine.SmartScriptEngine.FetchPopped` | src/main/java/hr/fer/zemris/java/custom/scripting/exec/SmartScriptEngine.java:178-185 | the rest of a get after both pops |
| `Engine.SmartScriptEngine.ParamGet` | src/main/java/hr/fer/zemris/java/custom/scripting/exec/SmartScriptEngine.java:172-225 | the three gets do what `GetStep` says |
| `Engine.SmartScriptEngine.Store` | src/main/java/hr/fer/zemris/java/custom/scripting/exec/SmartScriptEngine.java:205 | the persistent or temporary map gets the entry |
| `Engine.SmartScriptEngine.Remove` | src/main/java/hr/fer/zemris/java/custom/scripting/exec/SmartScriptEngine.java:211 | the persistent or temporary map loses the name |
| `Engine.SmartScriptEngine.SetCall` | src/main/java/hr/fer/zemris/java/custom/scripting/exec/SmartScriptEngine.java:200-206 | fewer than two values throw and change nothing; otherwise the value's text is stored under the name's text |
| `Engine.SmartScriptEngine.StorePopped` | src/main/java/hr/fer/zemris/java/custom/scripting/exec/SmartScriptEngine.java:203-205 | the rest of a set after both pops |
| `Engine.SmartScriptEngine.ParamSet` | src/main/java/hr/fer/zemris/java/custom/scripting/exec/SmartScriptEngine.java:200-231 | the two sets do what `SetStep` says |
| `Engine.SmartScriptEngine.DelCall` | src/main/java/hr/fer/zemris/java/custom/scripting/exec/SmartScriptEngine.java:207-212 | an empty stack throws and changes nothing; otherwise the popped name is removed |
| `Engine.SmartScriptEngine.ParamDel` | src/main/java/hr/fer/zemris/java/custom/scripting/exec/SmartScriptEngine.java:207-236 | the two removes do what `DelStep` says |
| `Engine.SmartScriptEngine.Function` | src/main/java/hr/fer/zemris/java/custom/scripting/exec/SmartScriptEngine.java:117-240 | a function call does what `FunctionStep` says, unknown names included |
| `Engine.SmartScriptEngine.Constant` | src/main/java/hr/fer/zemris/java/custom/scripting/exec/SmartScriptEngine.java:79-82 | a constant pushes its text |
| `Engine.SmartScriptEngine.Variable` | src/main/java/hr/fer/zemris/java/custom/scripting/exec/SmartScriptEngine.java:83-86 | a variable pushes its loop value, or throws when it has none |
| `Engine.SmartScriptEngine.OperatorElement` | src/main/java/hr/fer/zemris/java/custom/scripting/exec/SmartScriptEngine.java:87-116 | an operator element does what `EchoStep` says |
| `Engine.SmartScriptEngine.Step` | src/main/java/hr/fer/zemris/java/custom/scripting/exec/SmartScriptEngine.java:76-243 | one element does what `EchoStep` says |
| `Engine.SmartScriptEngine.WriteValue` | src/main/java/hr/fer/zemris/java/custom/scripting/exec/SmartScriptEngine.java:255 | one value's text written, as `WriteAll` orders it |
| `Engine.SmartScriptEngine.WriteOne` | src/main/java/hr/fer/zemris/java/custom/scripting/exec/SmartScriptEngine.java:251-259 | one turn of the output loop keeps its invariant |
| `Engine.SmartScriptEngine.WriteOut` | src/main/java/hr/fer/zemris/java/custom/scripting/exec/SmartScriptEngine.java:251-259 | the output loop writes every value, bottom first |
| `Engine.SmartScriptEngine.Drain` | src/main/java/hr/fer/zemris/java/custom/scripting/exec/SmartScriptEngine.java:244-260 | the end of an echo tag writes the stack bottom first, as `WriteAll` says |
| `Engine.SmartScriptEngine.EchoElement` | src/main/java/hr/fer/zemris/java/custom/scripting/exec/SmartScriptEngine.java:76-243 | the i-th element runs after the ones before it |
| `Engine.SmartScriptEngine.RunAll` | src/main/java/hr/fer/zemris/java/custom/scripting/exec/SmartScriptEngine.java:76-243 | the element loop does what `RunElements` says |
| `Engine.SmartScriptEngine.VisitEcho` | src/main/java/hr/fer/zemris/java/custom/scripting/exec/SmartScriptEngine.java:68-262 | the context and the exception are `ExecEcho`'s |
| `Engine.SmartScriptEngine.VisitText` | src/main/java/hr/fer/zemris/java/custom/scripting/exec/SmartScriptEngine.java:28-35 | the text is written as it is |
| `Engine.SmartScriptEngine.VisitNode` | src/main/java/hr/fer/zemris/java/custom/scripting/exec/SmartScriptEngine.java:28-272 | a node does what `ExecNode` says, and on success the loop stacks are as before |
| `Engine.SmartScriptEngine.VisitChildren` | src/main/java/hr/fer/zemris/java/custom/scripting/exec/SmartScriptEngine.java:265-272 | the children run in order as `ExecChildren` says, and on success the loop stacks are as before |
| `Engine.SmartScriptEngine.ForBody` | src/main/java/hr/fer/zemris/java/custom/scripting/exec/SmartScriptEngine.java:55-60 | one iteration runs the body and adds the step |
| `Engine.SmartScriptEngine.ForTurn` | src/main/java/hr/fer/zemris/java/custom/scripting/exec/SmartScriptEngine.java:48-62 | one turn compares, then stops or iterates as `ForLoop` says |
| `Engine.SmartScriptEngine.ForEnd` | src/main/java/hr/fer/zemris/java/custom/scripting/exec/SmartScriptEngine.java:63-64 | the final pop restores the loop stacks |
| `Engine.SmartScriptEngine.ForValues` | src/main/java/hr/fer/zemris/java/custom/scripting/exec/SmartScriptEngine.java:40-42 | the bounds and the step are the elements' texts, as Strings |
| `Engine.SmartScriptEngine.ForStart` | src/main/java/hr/fer/zemris/java/custom/scripting/exec/SmartScriptEngine.java:39-45 | the start value is pushed on the variable's stack |
| `Engine.SmartScriptEngine.VisitFor` | src/main/java/hr/fer/zemris/java/custom/scripting/exec/SmartScriptEngine.java:38-65 | the loop does what `ForLoop` says on the texts of its bounds, and on success the loop stacks are restored |
| `Engine.SmartScriptEngine.Execute` | src/main/java/hr/fer/zemris/java/custom/scripting/exec/SmartScriptEngine.java:281-283 | the document does what `ExecNode` says |
| `EngineProperties.Strings` | src/main/java/hr/fer/zemris/java/custom/scripting/exec/SmartScriptEngine.java:79-82 | one String per text |
| `EngineProperties.ElementTexts` | src/main/java/hr/fer/zemris/java/custom/scripting/exec/SmartScriptEngine.java:78 | one text per element |
| `EngineProperties.ChildrenAppend` | src/main/java/hr/fer/zemris/java/custom/scripting/exec/SmartScriptEngine.java:268-270 | a split child list runs the first part, then the second from where it left off |
| `EngineProperties.ApplyAllSnoc` | src/main/java/hr/fer/zemris/java/webserver/RequestContext.java:143-173 | a write appended to a run of writes happens last |
| `EngineProperties.TextWrittenVerbatim` | src/main/java/hr/fer/zemris/java/custom/scripting/exec/SmartScriptEngine.java:28-35 | a text node writes its text unchanged, after the header if nothing was written yet |
| `EngineProperties.TextsWrittenInOrder` | src/main/java/hr/fer/zemris/java/custom/scripting/exec/SmartScriptEngine.java:265-272 | a document of text nodes writes the texts in order |
| `EngineProperties.RunSnoc` | src/main/java/hr/fer/zemris/java/custom/scripting/exec/SmartScriptEngine.java:76-243 | the last element runs on the stack the others left, unless one threw |
| `EngineProperties.WriteSnoc` | src/main/java/hr/fer/zemris/java/custom/scripting/exec/SmartScriptEngine.java:251-259 | the value on top is written last |
| `EngineProperties.ConstantsPushedInOrder` | src/main/java/hr/fer/zemris/java/custom/scripting/exec/SmartScriptEngine.java:79-82 | constants push their texts as Strings, in element order |
| `EngineProperties.StringsWrittenInOrder` | src/main/java/hr/fer/zemris/java/custom/scripting/exec/SmartScriptEngine.java:244-260 | Strings left on the stack are written bottom first |
| `EngineProperties.EchoOfConstants` | src/main/java/hr/fer/zemris/java/custom/scripting/exec/SmartScriptEngine.java:68-262 | an echo tag of constants writes their texts in element order |
| `EngineProperties.EchoIntOperator` | src/main/java/hr/fer/zemris/java/custom/scripting/exec/SmartScriptEngine.java:87-116 | `{$= a b op $}` writes a op b, computed as `int` |
| `EngineProperties.IntTextsCalculate` | src/main/java/hr/fer/zemris/java/custom/scripting/exec/ValueWrapper.java:90-129 | two int texts compute as the ints they spell |
| `EngineProperties.PushTwoIntegers` | src/main/java/hr/fer/zemris/java/custom/scripting/exec/SmartScriptEngine.java:79-82 | two int constants leave their texts, the second on top |
| `EngineProperties.EchoArithmeticExamples` | src/main/java/hr/fer/zemris/java/custom/scripting/exec/SmartScriptEngine.java:87-116 | `{$= 1 2 + $}` writes 3 and `{$= 5 3 - $}` writes 2 |
| `EngineProperties.EchoPowerRejected` | src/main/java/hr/fer/zemris/java/custom/scripting/exec/SmartScriptEngine.java:112-115 | any other operator symbol throws "Invalid operator!" |
| `EngineProperties.UnknownFunctionRejected` | src/main/java/hr/fer/zemris/java/custom/scripting/exec/SmartScriptEngine.java:237-240 | an unknown function throws and nothing is written |
| `EngineProperties.EchoVariable` | src/main/java/hr/fer/zemris/java/custom/scripting/exec/SmartScriptEngine.java:83-86 | a variable writes its loop's current value, or throws with no loop |
| `EngineProperties.ForWithoutStepThrows` | src/main/java/hr/fer/zemris/java/custom/scripting/exec/SmartScriptEngine.java:42 | a FOR without step throws NullPointerException before anything is written |
| `EngineProperties.IntegerConstantConverts` | src/main/java/hr/fer/zemris/java/custom/scripting/exec/SmartScriptEngine.java:40-41 | an int constant's text converts back to it |
| `EngineProperties.ForPastEndRunsNothing` | src/main/java/hr/fer/zemris/java/custom/scripting/exec/SmartScriptEngine.java:51-53 | a loop whose start is past its end runs its body no time |
| `EngineProperties.ForBoundIsText` | src/main/java/hr/fer/zemris/java/custom/scripting/exec/SmartScriptEngine.java:40 | a variable as a bound is its name's text, not its value |
| `EngineProperties.ForIgnoresOuterBinding` | src/main/java/hr/fer/zemris/java/custom/scripting/exec/SmartScriptEngine.java:45-64 | the body sees the loop's own value, whatever an outer loop bound |
| `EngineProperties.ForTurnShadowed` | src/main/java/hr/fer/zemris/java/custom/scripting/exec/SmartScriptEngine.java:55-60 | a turn that runs the body goes on the same way under an outer binding |
| `EngineProperties.ForEndShadowed` | src/main/java/hr/fer/zemris/java/custom/scripting/exec/SmartScriptEngine.java:51-53 | a turn that stops stops the same way under an outer binding |
| `EngineProperties.ForOneToTwo` | src/main/java/hr/fer/zemris/java/custom/scripting/exec/SmartScriptEngine.java:38-65 | `{$FOR i 1 2 1$}` runs its body with i = "1", then 2 |
| `EngineProperties.OneToTwoArithmetic` | src/main/java/hr/fer/zemris/java/custom/scripting/exec/ValueWrapper.java:47-129 | the comparisons and additions that loop makes |
| `EngineProperties.CountToTwo` | src/main/java/hr/fer/zemris/java/custom/scripting/exec/SmartScriptEngine.java:38-65 | with body `{$= i $}` the loop writes 1, then 2 |
| `EngineProperties.BodyWritesVariable` | src/main/java/hr/fer/zemris/java/custom/scripting/exec/SmartScriptEngine.java:83-86 | the body `{$= i $}` writes the text of i's value |
| `ListSpec.Inserted` | src/main/java/hr/fer/zemris/java/custom/collections/List.java:17-26 | insert puts the value at the position and shifts later elements right |
| `ListSpec.RemovedAt` | src/main/java/hr/fer/zemris/java/custom/collections/List.java:40-47 | remove drops the element at the index and shifts later ones left |
| `ListSpec.FirstIndex` | src/main/java/hr/fer/zemris/java/custom/collections/List.java:29-36 | indexOf is -1 exactly when absent, otherwise the first position holding the value |
| `ListSpec.FirstIndexAt` | src/main/java/hr/fer/zemris/java/custom/collections/List.java:29-36 | a position with the value and no copy before it is indexOf |
| `ListSpec.RemoveUndoesInsert` | src/main/java/hr/fer/zemris/java/custom/collections/List.java:17-47 | removing what was inserted gives the list back |
| `ListSpec.InsertUndoesRemove` | src/main/java/hr/fer/zemris/java/custom/collections/List.java:17-47 | re-inserting a removed element restores the list |
| `ListSpec.InsertAtEnds` | src/main/java/hr/fer/zemris/java/custom/collections/List.java:17-26 | inserting at size appends, at 0 prepends |
| `ListSpec.RemoveFirstOccurrence` | src/main/java/hr/fer/zemris/java/custom/collections/Collection.java:58 | removing the first occurrence drops exactly one copy |
| `ArrayCollections.ArrayIndexedCollection.constructor` | src/main/java/hr/fer/zemris/java/custom/collections/ArrayIndexedCollection.java:27-31 | empty, capacity 16 |
| `ArrayCollections.ArrayIndexedCollection.WithCapacity` | src/main/java/hr/fer/zemris/java/custom/collections/ArrayIndexedCollection.java:43-52 | empty, the given capacity |
| `ArrayCollections.ArrayIndexedCollection.Create` | src/main/java/hr/fer/zemris/java/custom/collections/ArrayIndexedCollection.java:43-52 | a capacity below 1 is IllegalArgumentException |
| `ArrayCollections.ArrayIndexedCollection.Grow` | src/main/java/hr/fer/zemris/java/custom/collections/ArrayIndexedCollection.java:136-143 | the array doubles and keeps the elements |
| `ArrayCollections.ArrayIndexedCollection.Add` | src/main/java/hr/fer/zemris/java/custom/collections/ArrayIndexedCollection.java:126-148 | null throws; otherwise the value is appended, doubling a full array; the modification count is not changed |
| `ArrayCollections.ArrayIndexedCollection.Get` | src/main/java/hr/fer/zemris/java/custom/collections/ArrayIndexedCollection.java:160-169 | the element at a valid index, else IndexOutOfBounds |
| `ArrayCollections.ArrayIndexedCollection.Clear` | src/main/java/hr/fer/zemris/java/custom/collections/ArrayIndexedCollection.java:178-188 | empty, used slots nulled, capacity kept, modification counted |
| `ArrayCollections.ArrayIndexedCollection.Insert` | src/main/java/hr/fer/zemris/java/custom/collections/ArrayIndexedCollection.java:202-231 | a bad position, then null, throw with nothing changed; otherwise `Inserted`, counted once |
| `ArrayCollections.ArrayIndexedCollection.IndexOf` | src/main/java/hr/fer/zemris/java/custom/collections/ArrayIndexedCollection.java:243-253 | `FirstIndex`; null is never found |
| `ArrayCollections.ArrayIndexedCollection.Remove` | src/main/java/hr/fer/zemris/java/custom/collections/ArrayIndexedCollection.java:265-277 | a bad index throws; otherwise `RemovedAt`, except that a full array fails after the shift, duplicating the last element |
| `ArrayCollections.ArrayIndexedCollection.Size` | src/main/java/hr/fer/zemris/java/custom/collections/ArrayIndexedCollection.java:288-290 | the number of elements |
| `ArrayCollections.ArrayIndexedCollection.Contains` | src/main/java/hr/fer/zemris/java/custom/collections/ArrayIndexedCollection.java:302-305 | true exactly for a non-null element present |
| `ArrayCollections.ArrayIndexedCollection.RemoveValue` | src/main/java/hr/fer/zemris/java/custom/collections/ArrayIndexedCollection.java:318-324 | removes the first occurrence, false when absent, failing as `remove(int)` on a full array |
| `ArrayCollections.ArrayIndexedCollection.ToArray` | src/main/java/hr/fer/zemris/java/custom/collections/ArrayIndexedCollection.java:336-342 | a new array of exactly the elements, in order |
| `ArrayCollections.ArrayIndexedCollection.GetCapacity` | src/main/java/hr/fer/zemris/java/custom/collections/ArrayIndexedCollection.java:369-371 | the array's length |
| `ArrayCollections.ArrayIndexedCollection.CreateElementsGetter` | src/main/java/hr/fer/zemris/java/custom/collections/ArrayIndexedCollection.java:455-457 | a new getter at the start, remembering the modification count |
| `ArrayCollections.ArrayElementsGetter.constructor` | src/main/java/hr/fer/zemris/java/custom/collections/ArrayIndexedCollection.java:397-401 | a getter at the start of the collection |
| `ArrayCollections.ArrayElementsGetter.HasNextElement` | src/main/java/hr/fer/zemris/java/custom/collections/ArrayIndexedCollection.java:413-420 | whether elements remain, or ConcurrentModification after a change |
| `ArrayCollections.ArrayElementsGetter.GetNextElement` | src/main/java/hr/fer/zemris/java/custom/collections/ArrayIndexedCollection.java:433-443 | the next element and a step on, NoSuchElement at the end, ConcurrentModification after a change |
| `ArrayCollections.ArrayElementsGetter.ProcessRemaining` | src/main/java/hr/fer/zemris/java/custom/collections/ElementsGetter.java:51-57 | every remaining element, in order, then exhausted; ConcurrentModification after a change |
| `LinkedCollections.ListNode.constructor` | src/main/java/hr/fer/zemris/java/custom/collections/LinkedListIndexedCollection.java:23-27 | a node with no links |
| `LinkedCollections.ListNode.WithPrevious` | src/main/java/hr/fer/zemris/java/custom/collections/LinkedListIndexedCollection.java:29-33 | a node linked back to the given one |
| `LinkedCollections.LinkedListIndexedCollection.constructor` | src/main/java/hr/fer/zemris/java/custom/collections/LinkedListIndexedCollection.java:48-52 | an empty list |
| `LinkedCollections.LinkedListIndexedCollection.Add` | src/main/java/hr/fer/zemris/java/custom/collections/LinkedListIndexedCollection.java:77-94 | null throws; otherwise a new last node linked both ways, counted |
| `LinkedCollections.LinkedListIndexedCollection.NodeFromFront` | src/main/java/hr/fer/zemris/java/custom/collections/LinkedListIndexedCollection.java:108-114 | the walk from the front reaches the node at the index |
| `LinkedCollections.LinkedListIndexedCollection.NodeFromBack` | src/main/java/hr/fer/zemris/java/custom/collections/LinkedListIndexedCollection.java:115-121 | the walk from the back reaches it, or dereferences null past a missing back link |
| `LinkedCollections.LinkedListIndexedCollection.NodeAt` | src/main/java/hr/fer/zemris/java/custom/collections/LinkedListIndexedCollection.java:106-128 | the node from the nearer end, failing only on the back walk past a missing link |
| `LinkedCollections.LinkedListIndexedCollection.Get` | src/main/java/hr/fer/zemris/java/custom/collections/LinkedListIndexedCollection.java:106-128 | a bad index throws; otherwise the element, or NullPointerException past a missing back link |
| `LinkedCollections.LinkedListIndexedCollection.Clear` | src/main/java/hr/fer/zemris/java/custom/collections/LinkedListIndexedCollection.java:136-141 | empty, modification counted |
| `LinkedCollections.LinkedListIndexedCollection.InsertFirst` | src/main/java/hr/fer/zemris/java/custom/collections/LinkedListIndexedCollection.java:164-173 | the new node is first, and the old first node's back link is left null |
| `LinkedCollections.LinkedListIndexedCollection.InsertMiddle` | src/main/java/hr/fer/zemris/java/custom/collections/LinkedListIndexedCollection.java:177-199 | the node at the position is found and the new node spliced in before it, or NullPointerException through a missing link |
| `LinkedCollections.LinkedListIndexedCollection.LinkBefore` | src/main/java/hr/fer/zemris/java/custom/collections/LinkedListIndexedCollection.java:192-197 | the splice links the new node between its neighbours |
| `LinkedCollections.LinkedListIndexedCollection.Insert` | src/main/java/hr/fer/zemris/java/custom/collections/LinkedListIndexedCollection.java:156-204 | null, then a bad position, throw with nothing changed; otherwise `Inserted`, and exactly which calls fail through a missing link |
| `LinkedCollections.LinkedListIndexedCollection.RemoveMiddle` | src/main/java/hr/fer/zemris/java/custom/collections/LinkedListIndexedCollection.java:266-285 | the node is found and unlinked, or NullPointerException through a missing link |
| `LinkedCollections.LinkedListIndexedCollection.Unlink` | src/main/java/hr/fer/zemris/java/custom/collections/LinkedListIndexedCollection.java:281-284 | the neighbours are linked to each other |
| `LinkedCollections.LinkedListIndexedCollection.Remove` | src/main/java/hr/fer/zemris/java/custom/collections/LinkedListIndexedCollection.java:244-286 | a bad index throws; otherwise `RemovedAt`, and exactly which calls fail through a missing link |
| `LinkedCollections.LinkedListIndexedCollection.RemoveFirst` | src/main/java/hr/fer/zemris/java/custom/collections/LinkedListIndexedCollection.java:254-259 | the second node becomes first |
| `LinkedCollections.LinkedListIndexedCollection.RemoveLast` | src/main/java/hr/fer/zemris/java/custom/collections/LinkedListIndexedCollection.java:260-265 | the last node is dropped, or NullPointerException when its back link is missing |
| `LinkedCollections.LinkedListIndexedCollection.Size` | src/main/java/hr/fer/zemris/java/custom/collections/LinkedListIndexedCollection.java:297-299 | the number of elements |
| `LinkedCollections.LinkedListIndexedCollection.IndexOf` | src/main/java/hr/fer/zemris/java/custom/collections/LinkedListIndexedCollection.java:217-231 | `FirstIndex`; null is -1; a non-null value on an empty list is NullPointerException |
| `LinkedCollections.LinkedListIndexedCollection.Contains` | src/main/java/hr/fer/zemris/java/custom/collections/LinkedListIndexedCollection.java:311-314 | whether indexOf found it, sharing its failure on an empty list |
| `LinkedCollections.LinkedListIndexedCollection.RemoveValue` | src/main/java/hr/fer/zemris/java/custom/collections/LinkedListIndexedCollection.java:327-333 | null gives false; true exactly when `remove(int)` succeeds at the first occurrence, removing it and counting one modification; absent is false, a non-null value on an empty list NullPointerException, and every outcome but true leaves the list, its links and its count unchanged |
| `LinkedCollections.LinkedListIndexedCollection.ToArray` | src/main/java/hr/fer/zemris/java/custom/collections/LinkedListIndexedCollection.java:345-357 | a new array of the elements in order |
| `LinkedCollections.LinkedListIndexedCollection.CreateElementsGetter` | src/main/java/hr/fer/zemris/java/custom/collections/LinkedListIndexedCollection.java:467 | a new getter at the start, remembering the modification count |
| `LinkedCollections.LinkedListElementsGetter.constructor` | src/main/java/hr/fer/zemris/java/custom/collections/LinkedListIndexedCollection.java:403-408 | a getter at the first node |
| `LinkedCollections.LinkedListElementsGetter.HasNextElement` | src/main/java/hr/fer/zemris/java/custom/collections/LinkedListIndexedCollection.java:420-427 | whether elements remain, or ConcurrentModification after a change |
| `LinkedCollections.LinkedListElementsGetter.GetNextElement` | src/main/java/hr/fer/zemris/java/custom/collections/LinkedListIndexedCollection.java:440-455 | the next element and a step on, NoSuchElement at the end, ConcurrentModification after a change |
| `LinkedCollections.LinkedListElementsGetter.ProcessRemaining` | src/main/java/hr/fer/zemris/java/custom/collections/ElementsGetter.java:51-57 | every remaining element, in order, then exhausted |
| `LinkedScenarios.FrontInsertThenRemoveLast` | src/main/java/hr/fer/zemris/java/custom/collections/LinkedListIndexedCollection.java:164-173 | after a front insertion, removing the last of two elements throws NullPointerException |
| `LinkedScenarios.FrontInsertsThenGet` | src/main/java/hr/fer/zemris/java/custom/collections/LinkedListIndexedCollection.java:115-121 | after two front insertions the middle of three is unreachable from the back; the ends are reachable |
| `ObjectStacks.ObjectStack.constructor` | src/main/java/hr/fer/zemris/java/custom/collections/ObjectStack.java:20-23 | an empty stack over a 16-slot array |
| `ObjectStacks.ObjectStack.IsEmpty` | src/main/java/hr/fer/zemris/java/custom/collections/ObjectStack.java:31-33 | true exactly when empty |
| `ObjectStacks.ObjectStack.Size` | src/main/java/hr/fer/zemris/java/custom/collections/ObjectStack.java:43-45 | the number of values |
| `ObjectStacks.ObjectStack.Push` | src/main/java/hr/fer/zemris/java/custom/collections/ObjectStack.java:54-56 | null throws; otherwise the value is the new top |
| `ObjectStacks.ObjectStack.Pop` | src/main/java/hr/fer/zemris/java/custom/collections/ObjectStack.java:66-75 | EmptyStackException when empty; otherwise the top is returned and removed, except that a stack filling its array fails and is left as it was |
| `ObjectStacks.ObjectStack.Peek` | src/main/java/hr/fer/zemris/java/custom/collections/ObjectStack.java:85-92 | the top, or EmptyStackException |
| `ObjectStacks.ObjectStack.Clear` | src/main/java/hr/fer/zemris/java/custom/collections/ObjectStack.java:99-101 | empty, capacity kept |
| `ObjectStacks.PopAtCapacity` | src/main/java/hr/fer/zemris/java/custom/collections/ObjectStack.java:66-75 | a pop of sixteen values fails; after a seventeenth push it works |
| `Collections.Satisfying` | src/main/java/hr/fer/zemris/java/custom/collections/Collection.java:133-143 | exactly the accepted elements, in order |
| `Collections.CollectionRef.Size` | src/main/java/hr/fer/zemris/java/custom/collections/Collection.java:30 | the number of elements |
| `Collections.CollectionRef.IsEmpty` | src/main/java/hr/fer/zemris/java/custom/collections/Collection.java:19-22 | `size() == 0` |
| `Collections.CollectionRef.Add` | src/main/java/hr/fer/zemris/java/custom/collections/Collection.java:38 | null throws; otherwise the value is appended |
| `Collections.CollectionRef.ForEach` | src/main/java/hr/fer/zemris/java/custom/collections/Collection.java:78-84 | every element once, in getter order |
| `Collections.CollectionRef.AddEach` | src/main/java/hr/fer/zemris/java/custom/collections/Collection.java:96-101 | each value added in turn |
| `Collections.CollectionRef.AddAll` | src/main/java/hr/fer/zemris/java/custom/collections/Collection.java:94-105 | null (None) is NullPointerException with nothing added; from a separate collection: the other's elements appended in its order, the other unchanged; a linked list added to itself gets its first element appended and then ConcurrentModificationException, an empty one is left alone |
| `Collections.CollectionRef.AddAllSatisfying` | src/main/java/hr/fer/zemris/java/custom/collections/Collection.java:133-143 | null (None) is NullPointerException with nothing added; from a separate collection: only the accepted elements appended, in order, the other unchanged; a linked list added to itself gets its first accepted element appended and then ConcurrentModificationException |
| `Collections.CollectionRef.AddEachKeeping` | src/main/java/hr/fer/zemris/java/custom/collections/Collection.java:96-101 | adding leaves a separate collection unchanged |
| `Collections.AddOwn` | src/main/java/hr/fer/zemris/java/custom/collections/Collection.java:94-105 | addAll of a linked list with itself: nothing for an empty list, else the first element appended and then ConcurrentModificationException |
| `Collections.FirstAccepted` | src/main/java/hr/fer/zemris/java/custom/collections/ElementsGetter.java:51-57 | the getter's walk reaches the first accepted element, or none when the tester accepts nothing |
| `Collections.AddOwnSatisfying` | src/main/java/hr/fer/zemris/java/custom/collections/Collection.java:133-143 | addAllSatisfying of a linked list with itself: unchanged when nothing is accepted, else the first accepted element appended and then ConcurrentModificationException |
| `Collections.SatisfyingAppend` | src/main/java/hr/fer/zemris/java/custom/collections/Collection.java:133-143 | filtering distributes over concatenation |
| `Collections.SatisfyingFirst` | src/main/java/hr/fer/zemris/java/custom/collections/Collection.java:133-143 | an accepted element with no accepted one before it is the first accepted |
| `Collections.NewArrayFrom` | src/main/java/hr/fer/zemris/java/custom/collections/ArrayIndexedCollection.java:64-114 | a null collection is NullPointerException, then a capacity below 1 IllegalArgumentException; otherwise a new collection with the other's elements, capacity the larger of its size and the given one |
| `Collections.NewLinkedFrom` | src/main/java/hr/fer/zemris/java/custom/collections/LinkedListIndexedCollection.java:62-65 | a new list holding the other's elements in order; null is NullPointerException inside addAll |
| `Collections.TwoGettersAgree` | src/main/java/hr/fer/zemris/java/custom/collections/ElementsGetter.java:51-57 | two getters over an unchanged collection hand out the same elements |

## Left out

- Floating point. A Double is kept as the literal it was parsed from, or as the unevaluated operation that produced it. The model therefore does not compute double results. `numCompare` with a Double operand yields the fault `FloatingPoint`. `Double.toString` is only modelled for decimal literals that a double holds exactly (`Elements.DoubleText`, below).
- `Elements.DoubleText`: a literal keeps its own significant digits here. Java prints the shortest decimal that reads back as the literal's nearest double. The two differ for any literal that is not that shortest decimal, which is possible from 16 significant digits on: "0.30000000000000001" is "0.3" and "9007199254740993.0" is "9.007199254740992E15" in Java. They also differ for a literal whose nearest double crosses 10^7 or 10^-3, such as "9999999.9999999999", which Java prints as "1.0E7".
- `Elements.AsText`: the text of a double constant is `DoubleText`'s, with the same gap for such literals.
- `Collections.CollectionRef.AddAll`: an array collection added to itself never terminates in Java, because `add` does not count a modification and the getter reads the live size. The model therefore requires such a collection to be empty. A linked list added to itself is modelled.
- `Collections.CollectionRef.AddAllSatisfying`: for the same reason, an array collection added to itself is required to have no element the tester accepts.
- Null Strings: header settings and cookie fields are non-null strings here. In Java a null MIME type throws NullPointerException in `createHeader` (RequestContext.java:181) after `headerGenerated` is already set (line 178). A null status text throws in `replace` (line 205). A null cookie name or value is written as "null".
- `RequestContexts.RequestContext.WithSession`: the seven-argument constructor stores the temporary-parameter map it is given (RequestContext.java:42-49). A null map there makes the temporary-parameter methods and the @tparam functions throw NullPointerException in Java; the model's map cannot be null. Null parameter maps and cookie lists passed to either constructor are not represented either.
- `RequestContexts.RequestContext.AddRCCookie`: a cookie is always a value here. Java accepts a null cookie in `addRCCookie` (RequestContext.java:77-80), and the next header then throws NullPointerException when `createHeader` reads its fields.
- Null testers: a tester is a function here. In Java, `addAllSatisfying(col, null)` throws NullPointerException at its first element (Collection.java:137-141).
- `Engine.SmartScriptEngine.Sin`: `Math.sin`/`Math.toRadians` are not evaluated, so @sin is stated only up to its failure (`SinStep` ends in `FloatingPoint` after the pop).
- `Engine.SmartScriptEngine.Decfmt`: `DecimalFormat` is not modelled, so @decfmt is stated only up to its failure, the same way.
- `Double.parseDouble` syntax: `JavaLang.JavaDoubleSyntax` covers the decimal form. It does not cover the hexadecimal form, NaN, Infinity or type suffixes.
- Unicode: `Character.isLetter`, `isDigit` and `toUpperCase` are restricted to ASCII.
- FOR loops take a `fuel` bound. A walk that would iterate more often than the bound ends in the fault `FuelExhausted`. A Java loop that never ends is therefore not represented.
- I/O:
  - `IOException` and its `println` handlers are not modelled.
  - The output stream is the sequence of chunks written to it.
  - A string is kept with the name of its charset instead of its bytes, so `Charset.forName` and `getBytes(charset)` are not computed. Only the header's ISO-8859-1 encoding is computed.
  - An encoding name that `Charset.forName` does not know makes Java throw at the first write, before the header is written (RequestContext.java:145, 155, 167). The model does not represent this: every encoding name is accepted and recorded as the charset.
- `RequestContext.getDispatcher` and the `IDispatcher`/`SmartHttpServer`/worker classes are not part of this model. Neither are the demos, `TreeWriter` and the `toString` methods of the collections.
- Node classes: `Element*`, `TextNode`, `EchoNode` and `ForLoopNode` are immutable in the Java code and are datatypes here. During parsing, nodes live in an arena of records indexed by number rather than as objects linked by references. `Nodes.ToTree` turns the arena into the node datatype.
- `Processor` and `Tester` are not objects. A processor's calls are returned as the sequence of values it received, and a tester is a function.
- Casts that would throw `ClassCastException` (a non-`ElementVariable` FOR variable, a non-numeric @sin argument) follow the paths the code's own checks take. Casts that the code's checks already exclude are not modelled.
- When a lexer method throws, the lexer's fields are stated only for the exception path that `Step` describes. Where the Java code has already advanced `currentIndex` before throwing, that intermediate index is not modelled.
