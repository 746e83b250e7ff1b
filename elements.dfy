/** The tokens of SmartScript, which are also the leaves of its parse tree:
    Element and its six subclasses, each with its asText. */
module Elements {
  import opened JavaLang

  datatype Element =
    | ElementString(value: string)
    | ElementConstantInteger(intValue: Int32)
      /** A double constant, kept as the literal the lexer read (see DoubleText). */
    | ElementConstantDouble(literal: string)
    | ElementVariable(name: string)
      /** The name includes the leading '@'. */
    | ElementFunction(name: string)
    | ElementOperator(symbol: string)

  /** `e instanceof ElementOperator && e.asText().equals(symbol)`. */
  predicate IsOperator(e: Element, symbol: string)
  {
    e.ElementOperator? && e.symbol == symbol
  }

  /** The literals lookForNumber produces when they hold a '.': an optional '-',
      digits, the '.', and possibly more digits. */
  predicate DoubleLiteral(s: string)
  {
    var body := if |s| > 0 && s[0] == '-' then s[1..] else s;
    var k := DigitRunEnd(body, 0);
    0 < k < |body| && body[k] == '.' && AllDigits(body[k + 1..])
  }

  /** End of the run of '0' characters starting at i. */
  function ZeroRunEnd(s: string, i: nat): (j: nat)
    requires i <= |s|
    ensures i <= j <= |s| && (j < |s| ==> s[j] != '0')
    ensures forall k :: i <= k < j ==> s[k] == '0'
    decreases |s| - i
  {
    if i < |s| && s[i] == '0' then ZeroRunEnd(s, i + 1) else i
  }

  /** Digits without their leading zeros, or "0" when nothing else is left. */
  function DropLeadingZeros(s: string): (r: string)
    ensures |r| > 0
  {
    var j := ZeroRunEnd(s, 0);
    if j == |s| then "0" else s[j..]
  }

  /** Digits without their trailing zeros, or "0" when nothing else is left. */
  function DropTrailingZeros(s: string): (r: string)
    ensures |r| > 0
    decreases |s|
  {
    if |s| == 0 then "0"
    else if s[|s| - 1] == '0' then DropTrailingZeros(s[..|s| - 1])
    else s
  }

  /** Double.toString(Double.parseDouble(literal)) for a DoubleLiteral whose
      value a double holds exactly as written (at most 17 significant digits and
      no rounding): written out on the decimal digits, the plain form d.ddd when
      the first significant digit stands for a power of ten between -3 and 6,
      the computerised scientific form d.dddEn otherwise, "0.0" for zero, the
      sign kept. A literal beyond a double's precision keeps all its digits here,
      where Java prints the nearest double's shortest form. */
  function DoubleText(literal: string): (r: string)
    ensures DoubleLiteral(literal) ==> '.' in r
  {
    if !DoubleLiteral(literal) then literal
    else
      var negative := literal[0] == '-';
      var sign := if negative then "-" else "";
      var body := if negative then literal[1..] else literal;
      var k := DigitRunEnd(body, 0);
      var intPart := body[..k];
      var fraction := body[k + 1..];
      var digits := intPart + fraction;
      var lead := ZeroRunEnd(digits, 0);
      if lead == |digits| then
        assert (sign + "0.0")[|sign| + 1] == '.';
        sign + "0.0"
      else
        var exponent := k - 1 - lead;
        if -3 <= exponent < 7 then
          var whole := DropLeadingZeros(intPart);
          var r := sign + whole + "." + DropTrailingZeros(fraction);
          assert r[|sign| + |whole|] == '.';
          r
        else
          var significant := DropTrailingZeros(digits[lead..]);
          var rest := if |significant| == 1 then "0" else significant[1..];
          var mantissa := sign + significant[..1] + ".";
          var r := mantissa + rest + "E" + IntToString(exponent);
          assert mantissa[|sign| + 1] == '.';
          assert r[..|mantissa|] == mantissa;
          r
  }

  /** asText: the text an element stands for. */
  function AsText(e: Element): (r: string)
    ensures e.ElementConstantInteger? ==> ParseInt(r) == Ok(e.intValue)
    ensures e.ElementConstantDouble? && DoubleLiteral(e.literal) ==> '.' in r
  {
    match e
    case ElementString(value) => value
    case ElementConstantInteger(i) => ParseIntToString(i); IntToString(i)
    case ElementConstantDouble(literal) => DoubleText(literal)
    case ElementVariable(name) => name
    case ElementFunction(name) => name
    case ElementOperator(symbol) => symbol
  }

  /** Trailing fraction zeros and leading integer zeros do not show:
      "07.50" is written 7.5. */
  lemma PlainDoubleText()
    ensures DoubleText("07.50") == "7.5"
  {
    var s := "07.50";
    assert DigitRunEnd(s, 2) == 2;
    assert DigitRunEnd(s, 1) == 2;
    assert DigitRunEnd(s, 0) == 2;
    assert s[..2] == "07" && s[3..] == "50";
    var digits := "07" + "50";
    assert ZeroRunEnd(digits, 1) == 1;
    assert ZeroRunEnd(digits, 0) == 1;
    assert ZeroRunEnd("07", 1) == 1;
    assert ZeroRunEnd("07", 0) == 1;
    assert "07"[1..] == "7";
    assert DropTrailingZeros("5") == "5";
    assert DropTrailingZeros("50") == "5" by { assert "50"[..1] == "5"; }
  }

  /** Negative zero keeps its sign. */
  lemma NegativeZeroText()
    ensures DoubleText("-0.0") == "-0.0"
  {
    var t := "-0.0";
    assert t[1..] == "0.0";
    assert DigitRunEnd("0.0", 1) == 1;
    assert DigitRunEnd("0.0", 0) == 1;
    assert "0.0"[..1] == "0" && "0.0"[2..] == "0";
    assert ZeroRunEnd("00", 2) == 2;
    assert ZeroRunEnd("00", 1) == 2;
    assert ZeroRunEnd("00", 0) == 2;
  }

  /** Ten million switches to the scientific form: 10000000.0 is written 1.0E7. */
  lemma LargeDoubleText()
    ensures DoubleText("10000000.0") == "1.0E7"
  {
    var s := "10000000.0";
    IntegerPartOfTenMillion();
    assert s[9..] == "0";
    var digits := s[..8] + "0";
    assert digits == "100000000";
    assert ZeroRunEnd(digits, 0) == 0;
    assert digits[0..] == digits;
    TrailingZerosOfTenMillion();
    assert IntToString(7) == "7";
  }

  lemma IntegerPartOfTenMillion()
    ensures DigitRunEnd("10000000.0", 0) == 8
  {
    var s := "10000000.0";
    assert DigitRunEnd(s, 8) == 8;
    assert DigitRunEnd(s, 7) == 8;
    assert DigitRunEnd(s, 6) == 8;
    assert DigitRunEnd(s, 5) == 8;
    assert DigitRunEnd(s, 4) == 8;
    assert DigitRunEnd(s, 3) == 8;
    assert DigitRunEnd(s, 2) == 8;
    assert DigitRunEnd(s, 1) == 8;
  }

  lemma TrailingZerosOfTenMillion()
    ensures DropTrailingZeros("100000000") == "1"
  {
    assert DropTrailingZeros("1") == "1";
    assert "10"[..1] == "1";
    assert "100"[..2] == "10";
    assert "1000"[..3] == "100";
    assert "10000"[..4] == "1000";
    assert "100000"[..5] == "10000";
    assert "1000000"[..6] == "100000";
    assert "10000000"[..7] == "1000000";
    assert "100000000"[..8] == "10000000";
  }

  /** Below one thousandth as well: 0.0001 is written 1.0E-4. */
  lemma SmallDoubleText()
    ensures DoubleText("0.0001") == "1.0E-4"
  {
    var t := "0.0001";
    assert DigitRunEnd(t, 1) == 1;
    assert DigitRunEnd(t, 0) == 1;
    assert t[..1] == "0" && t[2..] == "0001";
    var digits := "0" + "0001";
    assert ZeroRunEnd(digits, 4) == 4;
    assert ZeroRunEnd(digits, 3) == 4;
    assert ZeroRunEnd(digits, 2) == 4;
    assert ZeroRunEnd(digits, 1) == 4;
    assert ZeroRunEnd(digits, 0) == 4;
    assert digits[4..] == "1";
    assert DropTrailingZeros("1") == "1";
    assert IntToString(-4) == "-4" by { assert NatToString(4) == "4"; }
  }
}
