/** ValueWrapper: a mutable box around an arbitrary Java object that does
    int/double arithmetic and comparison after coercing strings and null. */
module ValueWrappers {
  import opened JavaLang

  datatype ArithOp = Plus | Minus | Times | Quotient

  /** A Java `double` the model does not evaluate: the text it was parsed from,
      an `int` widened to `double`, or the operation that produced it. */
  datatype Float =
    | Parsed(text: string)
    | Widened(i: Int32)
    | Computed(op: ArithOp, left: Float, right: Float)

  /** The object a ValueWrapper can hold: null, an Integer, a Double, a String,
      or any other class (JBoolean stands for every class the coercion rejects). */
  datatype Obj =
    | Null
    | JInteger(i: Int32)
    | JDouble(d: Float)
    | JString(s: string)
    | JBoolean(b: bool)

  /** What convertType produces: an Integer or a Double. */
  datatype Num = IntNum(i: Int32) | DoubleNum(d: Float)

  /** The test convertType uses to choose Double.parseDouble over Integer.parseInt. */
  predicate LooksLikeDouble(s: string) { '.' in s || 'E' in s }

  /** convertType: null becomes 0, a String is parsed, Integer and Double pass,
      anything else is rejected. */
  function ConvertType(v: Obj): (r: Result<Num>)
    ensures r.Ok? <==> !v.JBoolean? && (v.JString? ==>
      if LooksLikeDouble(v.s) then JavaDoubleSyntax(v.s) else ParseInt(v.s).Ok?)
    ensures r.Ok? && r.value.DoubleNum? <==>
      v.JDouble? || (v.JString? && LooksLikeDouble(v.s) && JavaDoubleSyntax(v.s))
  {
    match v
    case Null => Ok(IntNum(0))
    case JString(s) =>
      if LooksLikeDouble(s) then
        if JavaDoubleSyntax(s) then Ok(DoubleNum(Parsed(s)))
        else Err(Runtime("Tried to parse string to double, but it was not a double"))
      else
        (match ParseInt(s)
         case Ok(i) => Ok(IntNum(i))
         case Err(_) => Err(Runtime("Tried to parse string to int, but it was not an int")))
    case JDouble(d) => Ok(DoubleNum(d))
    case JInteger(i) => Ok(IntNum(i))
    case JBoolean(_) => Err(Runtime("Not a valid type"))
  }

  function AsFloat(n: Num): Float
  {
    match n
    case IntNum(i) => Widened(i)
    case DoubleNum(d) => d
  }

  /** The exact result of an int operation before it is stored in an `int`. */
  function ExactIntOp(op: ArithOp, a: int, b: int): int
    requires op == Quotient ==> b != 0
  {
    match op
    case Plus => a + b
    case Minus => a - b
    case Times => a * b
    case Quotient => TruncDiv(a, b)
  }

  /** doCalculation: coerce both operands (the first one first), compute in
      double if either is a Double, otherwise in wrapping int arithmetic. */
  function DoCalculation(v1: Obj, v2: Obj, op: ArithOp): Result<Obj>
  {
    var first :- ConvertType(v1);
    var second :- ConvertType(v2);
    if first.DoubleNum? || second.DoubleNum? then
      Ok(JDouble(Computed(op, AsFloat(first), AsFloat(second))))
    else if op == Quotient && second.i == 0 then
      Err(Arithmetic)
    else
      Ok(JInteger(Wrap32(ExactIntOp(op, first.i, second.i))))
  }

  /** What an operation yields: the first conversion error, then the second;
      otherwise division of an Integer by Integer zero is the only failure; the
      result is a Double exactly when an operand is one, and an Integer result
      is the exact one modulo 2^32, and equal to it when it fits in an int. */
  lemma CalculationFacts(v1: Obj, v2: Obj, op: ArithOp)
    ensures var r := DoCalculation(v1, v2, op);
      (ConvertType(v1).Err? ==> r == Err(ConvertType(v1).fault)) &&
      (ConvertType(v1).Ok? && ConvertType(v2).Err? ==> r == Err(ConvertType(v2).fault)) &&
      (r.Err? && ConvertType(v1).Ok? && ConvertType(v2).Ok? ==>
        r.fault == Arithmetic && op == Quotient && ConvertType(v2).value == IntNum(0)
          && ConvertType(v1).value.IntNum?) &&
      (r.Ok? ==> r.value.JInteger? || r.value.JDouble?) &&
      (r.Ok? ==> (r.value.JDouble? <==>
        ConvertType(v1).value.DoubleNum? || ConvertType(v2).value.DoubleNum?)) &&
      (r.Ok? && r.value.JInteger? ==>
        var a, b := ConvertType(v1).value.i, ConvertType(v2).value.i;
        (op == Quotient ==> b != 0) &&
        (ExactIntOp(op, a, b) - r.value.i) % 0x1_0000_0000 == 0 &&
        (INT_MIN <= ExactIntOp(op, a, b) <= INT_MAX ==> r.value.i == ExactIntOp(op, a, b)))
  {
    var c1, c2 := ConvertType(v1), ConvertType(v2);
    if c1.Err? || c2.Err? {
    } else if c1.value.DoubleNum? || c2.value.DoubleNum? {
      assert DoCalculation(v1, v2, op).Ok? && DoCalculation(v1, v2, op).value.JDouble?;
    } else if op == Quotient && c2.value.i == 0 {
      assert DoCalculation(v1, v2, op) == Err(Arithmetic);
    } else {
      var exact := ExactIntOp(op, c1.value.i, c2.value.i);
      assert DoCalculation(v1, v2, op) == Ok(JInteger(Wrap32(exact)));
    }
  }

  /** numCompare: -1, 0 or 1 as the coerced first value is smaller, equal or
      larger. Comparing doubles needs their IEEE-754 values and is outside the model. */
  function NumCompare(v1: Obj, v2: Obj): (r: Result<int>)
    ensures r.Ok? ==> -1 <= r.value <= 1
    ensures r.Ok? <==> (ConvertType(v1).Ok? && ConvertType(v2).Ok? &&
      ConvertType(v1).value.IntNum? && ConvertType(v2).value.IntNum?)
    ensures r.Ok? ==>
      var a, b := ConvertType(v1).value.i, ConvertType(v2).value.i;
      (r.value < 0 <==> a < b) && (r.value == 0 <==> a == b) && (r.value > 0 <==> a > b)
  {
    var first :- ConvertType(v1);
    var second :- ConvertType(v2);
    if first.DoubleNum? || second.DoubleNum? then Err(FloatingPoint)
    else if first.i < second.i then Ok(-1)
    else if first.i > second.i then Ok(1)
    else Ok(0)
  }

  /** String.valueOf / toString of the held object; null has no toString. */
  function ObjToString(v: Obj): Result<string>
  {
    match v
    case Null => Err(NullPointer)
    case JInteger(i) => Ok(IntToString(i))
    case JDouble(_) => Err(FloatingPoint)
    case JString(s) => Ok(s)
    case JBoolean(b) => Ok(if b then "true" else "false")
  }

  /** An Integer's text parses back to the Integer; a String is its own text;
      null has none. */
  lemma ObjToStringRoundTrip(v: Obj)
    ensures v.JString? ==> ObjToString(v) == Ok(v.s)
    ensures v.JInteger? ==> ObjToString(v).Ok? && ParseInt(ObjToString(v).value) == Ok(v.i)
    ensures v.Null? ==> ObjToString(v) == Err(NullPointer)
  {
    if v.JInteger? {
      ParseIntToString(v.i);
    }
  }

  /** The mutable wrapper. */
  class ValueWrapper {
    var value: Obj

    constructor (value: Obj)
      ensures this.value == value
    {
      this.value := value;
    }

    method GetValue() returns (r: Obj)
      ensures r == value
    {
      r := value;
    }

    method SetValue(v: Obj)
      modifies this
      ensures value == v
    {
      value := v;
    }

    /** The shared body of add, subtract, multiply and divide: on success the
        result replaces the value, on an exception the value stays as it was. */
    method Calculate(other: Obj, op: ArithOp) returns (fault: Option<Fault>)
      modifies this
      ensures DoCalculation(old(value), other, op).Ok? ==>
        fault == None && value == DoCalculation(old(value), other, op).value
      ensures DoCalculation(old(value), other, op).Err? ==>
        fault == Some(DoCalculation(old(value), other, op).fault) && value == old(value)
    {
      var r := DoCalculation(value, other, op);
      if r.Ok? {
        value := r.value;
        fault := None;
      } else {
        fault := Some(r.fault);
      }
    }

    method Add(inc: Obj) returns (fault: Option<Fault>)
      modifies this
      ensures DoCalculation(old(value), inc, Plus).Ok? ==>
        fault == None && value == DoCalculation(old(value), inc, Plus).value
      ensures DoCalculation(old(value), inc, Plus).Err? ==>
        fault == Some(DoCalculation(old(value), inc, Plus).fault) && value == old(value)
    {
      fault := Calculate(inc, Plus);
    }

    method Subtract(dec: Obj) returns (fault: Option<Fault>)
      modifies this
      ensures DoCalculation(old(value), dec, Minus).Ok? ==>
        fault == None && value == DoCalculation(old(value), dec, Minus).value
      ensures DoCalculation(old(value), dec, Minus).Err? ==>
        fault == Some(DoCalculation(old(value), dec, Minus).fault) && value == old(value)
    {
      fault := Calculate(dec, Minus);
    }

    method Multiply(mul: Obj) returns (fault: Option<Fault>)
      modifies this
      ensures DoCalculation(old(value), mul, Times).Ok? ==>
        fault == None && value == DoCalculation(old(value), mul, Times).value
      ensures DoCalculation(old(value), mul, Times).Err? ==>
        fault == Some(DoCalculation(old(value), mul, Times).fault) && value == old(value)
    {
      fault := Calculate(mul, Times);
    }

    method Divide(div: Obj) returns (fault: Option<Fault>)
      modifies this
      ensures DoCalculation(old(value), div, Quotient).Ok? ==>
        fault == None && value == DoCalculation(old(value), div, Quotient).value
      ensures DoCalculation(old(value), div, Quotient).Err? ==>
        fault == Some(DoCalculation(old(value), div, Quotient).fault) && value == old(value)
    {
      fault := Calculate(div, Quotient);
    }

    method NumCompareWith(with: Obj) returns (r: Result<int>)
      ensures r == NumCompare(value, with)
    {
      r := NumCompare(value, with);
    }
  }

  // ---------------------------------------------------------------- properties

  /** null on either side counts as Integer 0: null + null == 0 and null + x == x for an int x. */
  lemma NullActsAsZero(x: Int32)
    ensures DoCalculation(Null, Null, Plus) == Ok(JInteger(0))
    ensures DoCalculation(Null, JInteger(x), Plus) == Ok(JInteger(x))
    ensures DoCalculation(JInteger(x), Null, Plus) == Ok(JInteger(x))
  {
  }

  /** An integer-looking String is parsed as Integer: "12" + 1 == 13, an Integer. */
  lemma IntegerStringCoerces()
    ensures DoCalculation(JString("12"), JInteger(1), Plus) == Ok(JInteger(13))
  {
    assert DigitsValue("12") == 12 by {
      assert "12"[..1] == "1";
    }
  }

  /** "1.2E1" is in the syntax Double.parseDouble accepts. */
  lemma ExponentLiteralSyntax()
    ensures JavaDoubleSyntax("1.2E1")
  {
    var s := "1.2E1";
    assert Trim(s) == s by { assert s[0] > ' ' && s[4] > ' '; }
    assert s[4] !in "fFdD";
    assert DigitRunEnd(s, 3) == 3;
    assert DigitRunEnd(s, 2) == 3 && DigitRunEnd(s, 1) == 1 && DigitRunEnd(s, 0) == 1;
    assert s[3..] == "E1" && "E1"[1..] == "1";
  }

  /** A String holding the decimal text of an int behaves exactly like that
      Integer, on either side of every operation. */
  lemma IntegerTextActsAsInteger(v: Obj, y: Int32, op: ArithOp)
    ensures DoCalculation(v, JString(IntToString(y)), op) == DoCalculation(v, JInteger(y), op)
    ensures DoCalculation(JString(IntToString(y)), v, op) == DoCalculation(JInteger(y), v, op)
    ensures NumCompare(v, JString(IntToString(y))) == NumCompare(v, JInteger(y))
  {
    ParseIntToString(y);
    assert ConvertType(JString(IntToString(y))) == Ok(IntNum(y));
  }

  /** A String with '.' or 'E' is parsed as Double, so the sum is a Double:
      "1.2E1" + 1 is a Double. */
  lemma ExponentStringIsDouble()
    ensures DoCalculation(JString("1.2E1"), JInteger(1), Plus)
         == Ok(JDouble(Computed(Plus, Parsed("1.2E1"), Widened(1))))
  {
    ExponentLiteralConverts();
  }

  lemma ExponentLiteralConverts()
    ensures ConvertType(JString("1.2E1")) == Ok(DoubleNum(Parsed("1.2E1")))
  {
    ExponentLiteralSyntax();
    assert LooksLikeDouble("1.2E1") by { assert "1.2E1"[1] == '.'; }
    DoubleTextConverts("1.2E1");
  }

  lemma DoubleTextConverts(s: string)
    requires LooksLikeDouble(s) && JavaDoubleSyntax(s)
    ensures ConvertType(JString(s)) == Ok(DoubleNum(Parsed(s)))
  {
  }

  /** A lower-case 'e' does not select the double path, and Integer.parseInt
      rejects it: "1e5" + 1 throws. */
  lemma LowerCaseExponentRejected()
    ensures DoCalculation(JString("1e5"), JInteger(1), Plus).Err?
  {
    assert !LooksLikeDouble("1e5");
    assert !AllDigits("1e5") by { assert !IsDigit("1e5"[1]); }
  }

  /** A String that is not a number throws, and so does any other class,
      on either side of the operation. */
  lemma NonNumbersRejected(x: Obj)
    ensures DoCalculation(JString("Ankica"), JInteger(1), Plus).Err?
    ensures DoCalculation(JBoolean(true), x, Plus).Err?
    ensures ConvertType(x).Ok? ==> DoCalculation(x, JBoolean(true), Plus).Err?
  {
    assert !AllDigits("Ankica") by { assert !IsDigit("Ankica"[0]); }
  }

  /** Two ints compare the same way their exact difference's sign says; the
      comparison never disagrees with equality of the coerced values. */
  lemma {:induction false} NumCompareAntisymmetric(v1: Obj, v2: Obj)
    requires NumCompare(v1, v2).Ok?
    ensures NumCompare(v2, v1).Ok? && NumCompare(v2, v1).value == -NumCompare(v1, v2).value
  {
  }

  /** Integer division by zero throws ArithmeticException; MIN_VALUE / -1 wraps to MIN_VALUE. */
  lemma IntDivisionEdges(x: Int32)
    ensures DoCalculation(JInteger(x), JInteger(0), Quotient) == Err(Arithmetic)
    ensures DoCalculation(JInteger(INT_MIN), JInteger(-1), Quotient) == Ok(JInteger(INT_MIN))
    ensures DoCalculation(JInteger(INT_MAX), JInteger(1), Plus) == Ok(JInteger(INT_MIN))
  {
    assert TruncDiv(INT_MIN, -1) == -INT_MIN;
  }
}
