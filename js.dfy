/** The few JavaScript value semantics the league components lean on:
    truthiness, `a || b`, `parseInt`, `Number(...)` on strings, `String(n)`
    and `String.prototype.trim`. Numbers are modelled as integers only. */
module Js {

  datatype Option<+T> = None | Some(value: T)

  datatype Result<+T, +E> = Ok(value: T) | Err(error: E)

  /** A JavaScript value as it appears in the form state of the components:
      a string, an integral number, NaN, or undefined. */
  datatype Value = Str(s: string) | Num(n: int) | NaN | Undefined

  /** JavaScript truthiness: '' , 0, NaN and undefined are falsy. */
  predicate Truthy(v: Value)
  {
    match v
    case Str(s) => s != []
    case Num(n) => n != 0
    case NaN => false
    case Undefined => false
  }

  /** `a || b` */
  function Or(a: Value, b: Value): (r: Value)
    ensures Truthy(a) ==> r == a
    ensures !Truthy(a) ==> r == b
  {
    if Truthy(a) then a else b
  }

  /** White space and line terminators as `trim` and `parseInt` skip them. */
  predicate IsWhitespace(c: char)
  {
    var k := c as int;
    k == 0x09 || k == 0x0A || k == 0x0B || k == 0x0C || k == 0x0D || k == 0x20 ||
    k == 0xA0 || k == 0x1680 || (0x2000 <= k <= 0x200A) || k == 0x2028 ||
    k == 0x2029 || k == 0x202F || k == 0x205F || k == 0x3000 || k == 0xFEFF
  }

  function TrimStart(s: string): (r: string)
    ensures |r| <= |s| && r == s[|s| - |r|..]
    ensures r != [] ==> !IsWhitespace(r[0])
    ensures forall i :: 0 <= i < |s| - |r| ==> IsWhitespace(s[i])
  {
    if s != [] && IsWhitespace(s[0]) then TrimStart(s[1..]) else s
  }

  function TrimEnd(s: string): (r: string)
    ensures |r| <= |s| && r == s[..|r|]
    ensures r != [] ==> !IsWhitespace(r[|r| - 1])
    ensures forall i :: |r| <= i < |s| ==> IsWhitespace(s[i])
  {
    if s != [] && IsWhitespace(s[|s| - 1]) then TrimEnd(s[..|s| - 1]) else s
  }

  /** `s.trim()` */
  function Trim(s: string): string
  {
    TrimEnd(TrimStart(s))
  }

  /** `!s.trim()`: the string is empty once trimmed. */
  predicate IsBlank(s: string)
  {
    Trim(s) == []
  }

  /** A string is blank exactly when every character of it is white space. */
  lemma BlankIffAllWhitespace(s: string)
    ensures IsBlank(s) <==> forall i :: 0 <= i < |s| ==> IsWhitespace(s[i])
  {
    var t := TrimStart(s);
    if IsBlank(s) {
      assert TrimEnd(t) == [];
    }
  }

  predicate IsDigit(c: char)
  {
    '0' <= c <= '9'
  }

  function DigitValue(c: char): (d: nat)
    requires IsDigit(c)
    ensures d < 10
  {
    (c as int) - ('0' as int)
  }

  function DigitChar(d: nat): (c: char)
    requires d < 10
    ensures IsDigit(c) && DigitValue(c) == d
  {
    (('0' as int) + d) as char
  }

  predicate AllDigits(d: string)
  {
    forall i :: 0 <= i < |d| ==> IsDigit(d[i])
  }

  /** The longest prefix of `s` made of decimal digits. */
  function DigitPrefix(s: string): (r: string)
    ensures |r| <= |s| && r == s[..|r|]
    ensures forall i :: 0 <= i < |r| ==> IsDigit(r[i])
    ensures |r| < |s| ==> !IsDigit(s[|r|])
  {
    if s != [] && IsDigit(s[0]) then [s[0]] + DigitPrefix(s[1..]) else []
  }

  /** The number a string of decimal digits denotes, read left to right. */
  function DigitsValue(d: string): nat
    requires forall i :: 0 <= i < |d| ==> IsDigit(d[i])
  {
    if d == [] then 0 else DigitsValue(d[..|d| - 1]) * 10 + DigitValue(d[|d| - 1])
  }

  /** The decimal digits of a natural number, most significant first. */
  function NatToDigits(n: nat): (d: string)
    ensures d != [] && forall i :: 0 <= i < |d| ==> IsDigit(d[i])
  {
    if n < 10 then [DigitChar(n)] else NatToDigits(n / 10) + [DigitChar(n % 10)]
  }

  /** `String(n)` for an integral number. */
  function IntToString(n: int): string
  {
    if n < 0 then ['-'] + NatToDigits(-n) else NatToDigits(n)
  }

  /** `parseInt(s, 10)`: skip leading white space, read an optional sign and
      then the longest run of decimal digits; no digit at all gives NaN. */
  function ParseInt(s: string): (r: Value)
    ensures r.Num? || r == NaN
  {
    var t := TrimStart(s);
    var neg := t != [] && t[0] == '-';
    var u := if t != [] && (t[0] == '-' || t[0] == '+') then t[1..] else t;
    var d := DigitPrefix(u);
    if d == [] then NaN
    else if neg then Num(-(DigitsValue(d) as int))
    else Num(DigitsValue(d))
  }

  /** `String(v)`: how `parseInt` sees a value that is not a string. */
  function ToJsString(v: Value): string
  {
    match v
    case Str(s) => s
    case Num(n) => IntToString(n)
    case NaN => "NaN"
    case Undefined => "undefined"
  }

  /** `parseInt(v)` for any value: it first converts the value to a string. */
  function ParseIntValue(v: Value): Value
  {
    ParseInt(ToJsString(v))
  }

  lemma {:induction false} DigitsValueOfNatToDigits(n: nat)
    ensures DigitsValue(NatToDigits(n)) == n
  {
    var d := NatToDigits(n);
    if n >= 10 {
      DigitsValueOfNatToDigits(n / 10);
      assert d[..|d| - 1] == NatToDigits(n / 10);
    }
  }

  lemma DigitPrefixOfDigits(d: string)
    requires forall i :: 0 <= i < |d| ==> IsDigit(d[i])
    ensures DigitPrefix(d) == d
  {
  }

  /** Reading back what `String(n)` wrote gives `n` again. */
  lemma ParseIntOfIntToString(n: int)
    ensures ParseInt(IntToString(n)) == Num(n)
  {
    var m: nat := if n < 0 then -n else n;
    var d := NatToDigits(m);
    DigitsValueOfNatToDigits(m);
    assert AllDigits(d);
    if n < 0 {
      var s := ['-'] + d;
      assert s[1..] == d;
      ParseIntOfNegative(s);
    } else {
      ParseIntOfDigits(d);
    }
  }

  /** `parseInt` of a run of digits is its value. */
  lemma ParseIntOfDigits(d: string)
    requires d != [] && AllDigits(d)
    ensures ParseInt(d) == Num(DigitsValue(d))
  {
    assert IsDigit(d[0]);
    assert TrimStart(d) == d;
    DigitPrefixOfDigits(d);
  }

  /** `parseInt` of '-' followed by a run of digits is minus its value. */
  lemma ParseIntOfNegative(s: string)
    requires |s| >= 2 && s[0] == '-' && AllDigits(s[1..])
    ensures ParseInt(s) == Num(-(DigitsValue(s[1..]) as int))
  {
    assert TrimStart(s) == s;
    DigitPrefixOfDigits(s[1..]);
  }

  /** `parseInt` leaves an integral number as it is. */
  lemma ParseIntValueOfNum(n: int)
    ensures ParseIntValue(Num(n)) == Num(n)
  {
    ParseIntOfIntToString(n);
  }

  /** `parseInt('')` is NaN. */
  lemma ParseIntOfEmpty()
    ensures ParseInt("") == NaN
  {
  }

  /** `Number(s)` for a string, restricted to integers: a blank string is 0,
      an optionally signed run of digits surrounded by white space is its
      value, anything else NaN. */
  function StringToNumber(s: string): (r: Value)
    ensures r.Num? || r == NaN
  {
    var t := Trim(s);
    if t == [] then Num(0) else SignedDigits(t)
  }

  /** A non-empty trimmed string as `Number` reads it: an optional sign and
      then digits only, or NaN. */
  function SignedDigits(t: string): (r: Value)
    requires t != []
    ensures r.Num? || r == NaN
  {
    var neg := t[0] == '-';
    var u := if t[0] == '-' || t[0] == '+' then t[1..] else t;
    if u != [] && AllDigits(u) then
      (if neg then Num(-(DigitsValue(u) as int)) else Num(DigitsValue(u)))
    else NaN
  }

  /** A string that neither starts nor ends with white space is its own
      trim. */
  lemma TrimOfUnpadded(s: string)
    requires s != [] && !IsWhitespace(s[0]) && !IsWhitespace(s[|s| - 1])
    ensures Trim(s) == s
  {
    assert TrimStart(s) == s;
  }

  /** `Number` of a run of digits is its value. */
  lemma StringToNumberOfDigits(d: string)
    requires d != [] && forall i :: 0 <= i < |d| ==> IsDigit(d[i])
    ensures StringToNumber(d) == Num(DigitsValue(d))
  {
    TrimOfDigits(d);
    SignedDigitsOfDigits(d);
  }

  /** A run of digits is its own trim. */
  lemma TrimOfDigits(d: string)
    requires d != [] && AllDigits(d)
    ensures Trim(d) == d
  {
    assert IsDigit(d[0]) && IsDigit(d[|d| - 1]);
    TrimOfUnpadded(d);
  }

  /** An unsigned run of digits is read as its value. */
  lemma SignedDigitsOfDigits(d: string)
    requires d != [] && AllDigits(d)
    ensures SignedDigits(d) == Num(DigitsValue(d))
  {
    assert d[0] != '-' && d[0] != '+' by {
      assert IsDigit(d[0]);
    }
  }

  /** `Number` of '-' followed by a run of digits is minus its value. */
  lemma StringToNumberOfNegative(s: string)
    requires |s| >= 2 && s[0] == '-' && forall i :: 1 <= i < |s| ==> IsDigit(s[i])
    ensures StringToNumber(s) == Num(-(DigitsValue(s[1..]) as int))
  {
    assert s[|s| - 1] == s[1..][|s| - 2];
    TrimOfUnpadded(s);
    assert SignedDigits(s) == Num(-(DigitsValue(s[1..]) as int));
  }

  /** Text that starts and ends with a digit but holds some other character
      (a decimal point, an exponent) is NaN for this model's `Number`. */
  lemma StringToNumberOfNonDigit(s: string, k: nat)
    requires s != [] && IsDigit(s[0]) && IsDigit(s[|s| - 1])
    requires k < |s| && !IsDigit(s[k])
    ensures StringToNumber(s) == NaN
  {
    TrimOfUnpadded(s);
    assert !AllDigits(s);
  }

  /** `Number(String(n))` is `n`. */
  lemma StringToNumberOfIntToString(n: int)
    ensures StringToNumber(IntToString(n)) == Num(n)
  {
    var m: nat := if n < 0 then -n else n;
    var d := NatToDigits(m);
    DigitsValueOfNatToDigits(m);
    if n < 0 {
      var s := ['-'] + d;
      StringToNumberOfNegative(s);
      assert s[1..] == d;
    } else {
      StringToNumberOfDigits(d);
    }
  }

  /** `Number(v)` for a value, as the relational operators apply it. */
  function ToNumber(v: Value): (r: Value)
    ensures r.Num? || r == NaN
  {
    match v
    case Str(s) => StringToNumber(s)
    case Num(n) => Num(n)
    case NaN => NaN
    case Undefined => NaN
  }

  /** `v < k`; a comparison with NaN is false. */
  predicate LessThan(v: Value, k: int)
  {
    var x := ToNumber(v);
    x.Num? && x.n < k
  }

  /** `v > k`; a comparison with NaN is false. */
  predicate GreaterThan(v: Value, k: int)
  {
    var x := ToNumber(v);
    x.Num? && x.n > k
  }
}
