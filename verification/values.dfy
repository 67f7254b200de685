/** PHP value semantics the controllers rely on: a dynamic scalar type, truthiness
    (`if ($x)`, `$x ? a : b`), array access with a null default, integer-form
    numeric strings and the loose `==` that a `switch` statement uses. */
module PhpValues {

  datatype Option<+T> = None | Some(value: T)

  /** A PHP scalar as it travels through request bags, form data arrays and entity setters. */
  datatype Value = Null | Bool(b: bool) | Int(i: int) | Str(s: string)

  /** PHP's conversion to boolean: null, false, 0, "" and "0" are false, everything else is true. */
  predicate Truthy(v: Value) {
    match v
    case Null => false
    case Bool(b) => b
    case Int(i) => i != 0
    case Str(s) => s != "" && s != "0"
  }

  /** `$array[$key]`, where a missing key reads as null. */
  function Lookup(a: map<string, Value>, key: string): Value {
    if key in a then a[key] else Null
  }

  /** The characters PHP accepts around a numeric string. */
  predicate IsWhitespace(c: char) {
    c == ' ' || c == '\t' || c == '\n' || c == '\r' || c == '\U{B}' || c == '\U{C}'
  }

  predicate IsDigit(c: char) {
    '0' <= c <= '9'
  }

  predicate AllDigits(s: string) {
    forall i :: 0 <= i < |s| ==> IsDigit(s[i])
  }

  function TrimLeft(s: string): (r: string)
    ensures |r| <= |s| && r == s[|s| - |r|..]
    ensures forall i :: 0 <= i < |s| - |r| ==> IsWhitespace(s[i])
    ensures |r| > 0 ==> !IsWhitespace(r[0])
  {
    if |s| > 0 && IsWhitespace(s[0]) then TrimLeft(s[1..]) else s
  }

  function TrimRight(s: string): (r: string)
    ensures |r| <= |s| && r == s[..|r|]
    ensures forall i :: |r| <= i < |s| ==> IsWhitespace(s[i])
    ensures |r| > 0 ==> !IsWhitespace(r[|r| - 1])
  {
    if |s| > 0 && IsWhitespace(s[|s| - 1]) then TrimRight(s[..|s| - 1]) else s
  }

  /** The number a non-empty run of decimal digits denotes. */
  function DigitsValue(s: string): nat
    requires AllDigits(s)
  {
    if |s| == 0 then 0 else 10 * DigitsValue(s[..|s| - 1]) + (s[|s| - 1] as int - '0' as int)
  }

  /** The value of an integer-form numeric string in PHP 8: optional leading and
      trailing whitespace around an optional sign and at least one decimal digit. */
  function IntegerNumeric(s: string): Option<int> {
    var t := TrimRight(TrimLeft(s));
    if |t| > 0 && (t[0] == '+' || t[0] == '-') then
      var digits := t[1..];
      if |digits| > 0 && AllDigits(digits) then
        var magnitude: int := DigitsValue(digits);
        Some(if t[0] == '-' then -magnitude else magnitude)
      else None
    else if |t| > 0 && AllDigits(t) then Some(DigitsValue(t))
    else None
  }

  function DigitChar(d: nat): (c: char)
    requires d < 10
    ensures IsDigit(c) && c as int - '0' as int == d
  {
    ('0' as int + d) as char
  }

  /** The decimal rendering of a natural number, without leading zeros. */
  function ShowNat(n: nat): (s: string)
    ensures |s| > 0 && AllDigits(s)
  {
    if n < 10 then [DigitChar(n)] else ShowNat(n / 10) + [DigitChar(n % 10)]
  }

  /** PHP's (string) cast of an integer. */
  function ShowInt(n: int): string {
    if n < 0 then "-" + ShowNat(-n) else ShowNat(n)
  }

  /** Reading back the decimal rendering of a natural number gives the number. */
  lemma {:induction false} DigitsValueShowNat(n: nat)
    ensures DigitsValue(ShowNat(n)) == n
  {
    if n >= 10 {
      var s := ShowNat(n);
      var prefix := ShowNat(n / 10);
      assert s == prefix + [DigitChar(n % 10)];
      assert s[..|s| - 1] == prefix;
      DigitsValueShowNat(n / 10);
    }
  }

  /** A string that neither starts nor ends with whitespace is its own trimming. */
  lemma TrimNothing(s: string)
    requires |s| > 0 && !IsWhitespace(s[0]) && !IsWhitespace(s[|s| - 1])
    ensures TrimRight(TrimLeft(s)) == s
  {
    assert TrimLeft(s) == s;
  }

  /** Every integer's string cast is an integer-form numeric string denoting that integer. */
  lemma IntegerNumericShowInt(n: int)
    ensures IntegerNumeric(ShowInt(n)) == Some(n)
  {
    if n < 0 {
      NegativeShowInt(n);
    } else {
      var s := ShowNat(n);
      DigitsValueShowNat(n);
      assert IsDigit(s[0]) && IsDigit(s[|s| - 1]);
      TrimNothing(s);
      assert s[0] != '+' && s[0] != '-';
    }
  }

  lemma NegativeShowInt(n: int)
    requires n < 0
    ensures IntegerNumeric(ShowInt(n)) == Some(n)
  {
    var digits := ShowNat(-n);
    var s := "-" + digits;
    assert ShowInt(n) == s;
    DigitsValueShowNat(-n);
    assert s[|s| - 1] == digits[|digits| - 1] && IsDigit(s[|s| - 1]);
    TrimNothing(s);
    assert s[0] == '-' && s[1..] == digits;
    var magnitude: int := DigitsValue(digits);
    assert magnitude == -n;
  }

  /** PHP 8's `$a == $b` between a value and a string literal: two numeric strings,
      or an integer and a numeric string, compare as numbers; null and booleans
      compare through their boolean reading; otherwise the comparison is textual. */
  function LooseEquals(a: Value, b: string): (r: bool)
    ensures a == Str(b) ==> r
    ensures a == Null ==> (r <==> b == "")
    ensures a.Str? && IntegerNumeric(a.s).Some? && IntegerNumeric(a.s) == IntegerNumeric(b) ==> r
  {
    match a
    case Null => b == ""
    case Bool(x) => x == Truthy(Str(b))
    case Int(i) =>
      if IntegerNumeric(b).Some? then IntegerNumeric(b).value == i else ShowInt(i) == b
    case Str(x) =>
      if IntegerNumeric(x).Some? && IntegerNumeric(b).Some? then IntegerNumeric(x) == IntegerNumeric(b)
      else x == b
  }

  /** The string casts of 0, 1 and -1. */
  lemma ShowIntSmall()
    ensures ShowInt(0) == "0" && ShowInt(1) == "1" && ShowInt(-1) == "-1"
  {
    assert ShowNat(0) == [DigitChar(0)] == "0";
    assert ShowNat(1) == [DigitChar(1)] == "1";
  }

  /** Loose comparison with an integer-form numeric literal `b` of value `n`, by the
      type of the other operand. */
  lemma LooseEqualsLiteral(v: Value, b: string, n: int)
    requires IntegerNumeric(b) == Some(n)
    ensures v.Null? ==> !LooseEquals(v, b)
    ensures v.Bool? ==> (LooseEquals(v, b) <==> v.b == (b != "0"))
    ensures v.Int? ==> (LooseEquals(v, b) <==> v.i == n)
    ensures v.Str? ==> (LooseEquals(v, b) <==> IntegerNumeric(v.s).Some? && IntegerNumeric(v.s).value == n)
  {
  }

  /** The three literals of the activation switch are integer-form numeric strings. */
  lemma NumericLiterals()
    ensures IntegerNumeric("0") == Some(0)
    ensures IntegerNumeric("1") == Some(1)
    ensures IntegerNumeric("-1") == Some(-1)
  {
    ShowIntSmall();
    IntegerNumericShowInt(0);
    IntegerNumericShowInt(1);
    IntegerNumericShowInt(-1);
  }
}
