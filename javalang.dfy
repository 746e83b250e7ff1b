/** The parts of the Java runtime that the interpreter and the collections rely on:
    exceptions (as faults), 32-bit `int` arithmetic, character classes,
    `Integer.parseInt`/`Integer.toString`, the syntax `Double.parseDouble` accepts,
    and the `String` helpers the code calls. */
module JavaLang {

  /** The exceptions the modelled code can raise, one constructor per Java class
      (messages kept where the source distinguishes cases by them). The last two
      are not Java exceptions: FloatingPoint marks a step that needs IEEE-754
      values, which the model does not compute, and FuelExhausted marks a loop
      stopped by the model's iteration bound. */
  datatype Fault =
    | NullPointer
    | IndexOutOfBounds
    | IllegalArgument(msg: string)
    | Runtime(msg: string)
    | Arithmetic
    | NumberFormat
    | ConcurrentModification
    | NoSuchElement
    | EmptyStack
    | LexerError(msg: string)
    | ParserError(msg: string)
    | FloatingPoint
    | FuelExhausted

  datatype Option<+T> = None | Some(value: T)

  /** A value or the exception that replaced it. */
  datatype Result<+T> = Ok(value: T) | Err(fault: Fault) {
    predicate IsFailure() { Err? }
    function PropagateFailure<U>(): Result<U> requires Err? { Err(fault) }
    function Extract(): T requires Ok? { value }
  }

  // ---------------------------------------------------------------- int

  const INT_MIN: int := -0x8000_0000
  const INT_MAX: int := 0x7fff_ffff

  /** Java `int`. */
  type Int32 = x: int | -0x8000_0000 <= x <= 0x7fff_ffff

  /** Two's-complement wrap-around of an exact result into `int`. */
  function Wrap32(x: int): (r: Int32)
    ensures INT_MIN <= x <= INT_MAX ==> r == x
    ensures (x - r) % 0x1_0000_0000 == 0
  {
    (x + 0x8000_0000) % 0x1_0000_0000 - 0x8000_0000
  }

  function Abs(x: int): nat { if x < 0 then -x else x }

  /** Integer division rounding toward zero, as Java, C and Go do it. */
  function TruncDiv(a: int, b: int): (q: int)
    requires b != 0
    ensures Abs(a - q * b) < Abs(b)
    ensures a - q * b == 0 || (a - q * b < 0 <==> a < 0)
  {
    var m := Abs(a) / Abs(b);
    var res := Abs(a) % Abs(b);
    assert Abs(a) == m * Abs(b) + res;
    if (a < 0) == (b < 0) then
      assert a - m * b == if a < 0 then -res else res;
      m
    else
      assert a - (-m) * b == if a < 0 then -res else res;
      -m
  }

  /** Java's `a / b` on `int`: truncating, and wrapping for MIN_VALUE / -1. */
  function JavaDiv(a: Int32, b: Int32): Int32
    requires b != 0
  {
    Wrap32(TruncDiv(a, b))
  }

  // ---------------------------------------------------------------- characters

  /** Character.isLetter, restricted to ASCII. */
  predicate IsLetter(c: char) { 'a' <= c <= 'z' || 'A' <= c <= 'Z' }

  /** Character.isDigit, restricted to ASCII. */
  predicate IsDigit(c: char) { '0' <= c <= '9' }

  /** Character.toUpperCase, restricted to ASCII. */
  function ToUpper(c: char): char
  {
    if 'a' <= c <= 'z' then (c as int - 32) as char else c
  }

  /** String.toUpperCase, restricted to ASCII. */
  function UpperCase(s: string): (r: string)
    ensures |r| == |s|
    ensures forall i :: 0 <= i < |s| ==> r[i] == ToUpper(s[i])
    ensures forall i :: 0 <= i < |s| ==> !('a' <= r[i] <= 'z')
  {
    if s == [] then [] else [ToUpper(s[0])] + UpperCase(s[1..])
  }

  // ---------------------------------------------------------------- decimal text

  function DigitChar(d: nat): (c: char)
    requires d < 10
    ensures IsDigit(c)
  {
    (48 + d) as char
  }

  function DigitValue(c: char): nat
    requires IsDigit(c)
  {
    c as int - 48
  }

  predicate AllDigits(s: string) { forall i :: 0 <= i < |s| ==> IsDigit(s[i]) }

  /** Decimal digits of a natural number, most significant first, no leading zeros. */
  function NatToString(n: nat): (s: string)
    ensures |s| > 0 && AllDigits(s)
    ensures |s| > 1 ==> s[0] != '0'
    decreases n
  {
    if n < 10 then [DigitChar(n)] else NatToString(n / 10) + [DigitChar(n % 10)]
  }

  /** Integer.toString. */
  function IntToString(i: int): string
  {
    if i < 0 then "-" + NatToString(-i) else NatToString(i)
  }

  /** The value of a string of decimal digits. */
  function DigitsValue(s: string): nat
    requires AllDigits(s)
    decreases |s|
  {
    if s == [] then 0 else DigitsValue(s[..|s| - 1]) * 10 + DigitValue(s[|s| - 1])
  }

  /** Integer.parseInt(s, 10): an optional sign, at least one digit, nothing else,
      and a value that fits in an `int`; anything else is a NumberFormatException. */
  function ParseInt(s: string): (r: Result<Int32>)
    ensures r.Ok? ==> |s| > 0 && '.' !in s && 'E' !in s
  {
    if |s| == 0 then Err(NumberFormat)
    else
      var body := if s[0] == '-' || s[0] == '+' then s[1..] else s;
      if |body| == 0 || !AllDigits(body) then Err(NumberFormat)
      else
        var v: int := if s[0] == '-' then -(DigitsValue(body) as int) else DigitsValue(body);
        if INT_MIN <= v <= INT_MAX then
          assert forall i :: 0 <= i < |s| ==> s[i] != '.' && s[i] != 'E' by {
            forall i | 0 <= i < |s| ensures s[i] != '.' && s[i] != 'E' {
              if i > 0 || !(s[0] == '-' || s[0] == '+') {
                assert s[i] == body[if s[0] == '-' || s[0] == '+' then i - 1 else i];
              }
            }
          }
          Ok(v)
        else Err(NumberFormat)
  }

  lemma {:induction false} DigitsValueOfNatToString(n: nat)
    ensures DigitsValue(NatToString(n)) == n
    decreases n
  {
    var s := NatToString(n);
    if n >= 10 {
      DigitsValueOfNatToString(n / 10);
      assert s[..|s| - 1] == NatToString(n / 10);
    }
  }

  /** Integer.parseInt(Integer.toString(i)) == i for every `int`. */
  lemma {:induction false} ParseIntToString(i: Int32)
    ensures ParseInt(IntToString(i)) == Ok(i)
  {
    var s := IntToString(i);
    if i < 0 {
      var n: nat := -(i as int);
      DigitsValueOfNatToString(n);
      assert s[1..] == NatToString(n);
    } else {
      DigitsValueOfNatToString(i);
      var d := NatToString(i);
      assert s == d && DigitsValue(d) == i && IsDigit(d[0]);
    }
  }

  // ---------------------------------------------------------------- Double.parseDouble syntax

  /** String.trim: drops leading and trailing characters up to ' '. */
  function Trim(s: string): (r: string)
    ensures |r| <= |s|
    ensures |r| > 0 ==> r[0] > ' ' && r[|r| - 1] > ' '
    decreases |s|
  {
    if |s| > 0 && s[0] <= ' ' then Trim(s[1..])
    else if |s| > 0 && s[|s| - 1] <= ' ' then Trim(s[..|s| - 1])
    else s
  }

  /** End of the run of digits starting at i. */
  function DigitRunEnd(s: string, i: nat): (j: nat)
    requires i <= |s|
    ensures i <= j <= |s| && AllDigits(s[i..j]) && (j < |s| ==> !IsDigit(s[j]))
    decreases |s| - i
  {
    if i < |s| && IsDigit(s[i]) then DigitRunEnd(s, i + 1) else i
  }

  /** `[eE][+-]?digits+` spans all of s (or s is empty). */
  predicate ExponentPart(s: string)
  {
    s == [] ||
    (|s| >= 2 && (s[0] == 'e' || s[0] == 'E') &&
     var digits := if s[1] == '+' || s[1] == '-' then s[2..] else s[1..];
     |digits| > 0 && AllDigits(digits))
  }

  /** The decimal form Double.parseDouble accepts after trimming: an optional sign,
      digits with at most one '.', at least one digit, an optional exponent and an
      optional type suffix f, F, d or D. (The hexadecimal form, "NaN" and "Infinity"
      are not covered; see the README.) */
  predicate DecimalDoubleSyntax(t: string)
  {
    var u := if |t| > 0 && (t[0] == '+' || t[0] == '-') then t[1..] else t;
    var b := if |u| > 0 && u[|u| - 1] in "fFdD" then u[..|u| - 1] else u;
    var i1 := DigitRunEnd(b, 0);
    var hasDot := i1 < |b| && b[i1] == '.';
    var i2 := if hasDot then DigitRunEnd(b, i1 + 1) else i1;
    var digitCount := if hasDot then i1 + (i2 - i1 - 1) else i1;
    digitCount > 0 && ExponentPart(b[i2..])
  }

  /** Double.parseDouble(s) does not throw. */
  predicate JavaDoubleSyntax(s: string) { DecimalDoubleSyntax(Trim(s)) }

  // ---------------------------------------------------------------- String helpers

  /** String.replace(target, replacement): every non-overlapping occurrence,
      scanning left to right. */
  function Replace(s: string, target: string, repl: string): string
    requires |target| > 0
    decreases |s|
  {
    if |s| < |target| then s
    else if target <= s then repl + Replace(s[|target|..], target, repl)
    else [s[0]] + Replace(s[1..], target, repl)
  }

  /** A prefix without the target's first character passes through Replace unchanged. */
  lemma {:induction false} ReplaceSkipsPrefix(a: string, b: string, target: string, repl: string)
    requires |target| > 0 && target[0] !in a
    ensures Replace(a + b, target, repl) == a + Replace(b, target, repl)
    decreases |a|
  {
    if a != [] {
      var s := a + b;
      assert s[0] == a[0] != target[0];
      assert !(target <= s);
      if |s| < |target| {
        // then b is shorter than target too, so Replace leaves both alone
        assert |b| < |target|;
      } else {
        assert s[1..] == a[1..] + b;
        ReplaceSkipsPrefix(a[1..], b, target, repl);
      }
    } else {
      assert a + b == b;
    }
  }

  /** A string that never contains the target's first character is left alone. */
  lemma ReplaceIdentity(s: string, target: string, repl: string)
    requires |target| > 0 && target[0] !in s
    ensures Replace(s, target, repl) == s
  {
    ReplaceSkipsPrefix(s, [], target, repl);
    assert s + [] == s;
  }

  /** An occurrence at the front is substituted. */
  lemma ReplaceAtFront(b: string, target: string, repl: string)
    requires |target| > 0
    ensures Replace(target + b, target, repl) == repl + Replace(b, target, repl)
  {
    var s := target + b;
    assert target <= s;
    assert s[|target|..] == b;
  }
}
