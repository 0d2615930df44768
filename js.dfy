/** The parts of JavaScript's runtime semantics the pipeline and the handlers rely on:
    JSON values as `JSON.parse` yields them, truthiness (`!x`, `a || b`), property and
    index access (which throws on `undefined`/`null`), `parseInt`, and ASCII case mapping. */
module Js {
  import opened Common

  datatype Json =
    | Undefined
    | Null
    | Bool(b: bool)
    | Num(n: real)
    | Str(s: string)
    | Arr(items: seq<Json>)
    | Obj(fields: map<string, Json>)

  /** JavaScript truthiness (NaN is not representable here). */
  predicate Truthy(v: Json)
  {
    match v
    case Undefined => false
    case Null => false
    case Bool(b) => b
    case Num(n) => n != 0.0
    case Str(s) => s != ""
    case Arr(_) => true
    case Obj(_) => true
  }

  /** A query-string parameter is absent or one string; it is truthy when it is a
      non-empty string. */
  predicate Given(q: Option<string>)
  {
    q.Some? && q.value != ""
  }

  /** `v[i]`: `None` stands for the TypeError thrown when `v` is `undefined` or `null`. */
  function At(v: Json, i: nat): (r: Option<Json>)
    ensures r.None? <==> v.Undefined? || v.Null?
  {
    match v
    case Undefined => None
    case Null => None
    case Arr(items) => Some(if i < |items| then items[i] else Undefined)
    case Str(s) => Some(if i < |s| then Str([s[i]]) else Undefined)
    case _ => Some(Undefined)
  }

  /** `v.key` or `v[key]`: `None` stands for the TypeError thrown on `undefined`/`null`. */
  function Prop(v: Json, key: string): (r: Option<Json>)
    ensures r.None? <==> v.Undefined? || v.Null?
  {
    match v
    case Undefined => None
    case Null => None
    case Obj(fields) => Some(if key in fields then fields[key] else Undefined)
    case _ => Some(Undefined)
  }

  /** The values on which an access throws a TypeError. */
  predicate Nullish(v: Json)
  {
    v.Undefined? || v.Null?
  }

  /** `v?.[i]`. */
  function OptAt(v: Json, i: nat): (r: Json)
    ensures Nullish(v) ==> r.Undefined?
    ensures !Nullish(v) ==> Some(r) == At(v, i)
  {
    if Nullish(v) then Undefined else At(v, i).value
  }

  /** `v?.key`. */
  function OptProp(v: Json, key: string): (r: Json)
    ensures Nullish(v) ==> r.Undefined?
    ensures !Nullish(v) ==> Some(r) == Prop(v, key)
  {
    if Nullish(v) then Undefined else Prop(v, key).value
  }

  /** `v.length`: the element or character count of an array or string, an object's own
      `length` member, and `undefined` for the other values. */
  function Length(v: Json): (r: Option<Json>)
    ensures r.None? <==> Nullish(v)
    ensures v.Arr? ==> r == Some(Num(|v.items| as real))
  {
    match v
    case Undefined => None
    case Null => None
    case Arr(items) => Some(Num(|items| as real))
    case Str(s) => Some(Num(|s| as real))
    case Obj(fields) => Some(if "length" in fields then fields["length"] else Undefined)
    case _ => Some(Undefined)
  }

  /** `a === b` between values of two different `JSON.parse` results: primitives compare
      by value, while two arrays or objects are never the same object. */
  predicate StrictEquals(a: Json, b: Json)
  {
    !a.Arr? && !a.Obj? && a == b
  }

  // ---------------------------------------------------------------------------
  // Case mapping

  /** `toLowerCase` on the ASCII range; other characters are kept. */
  function ToLower(s: string): (r: string)
    ensures |r| == |s|
    ensures forall i :: 0 <= i < |s| ==> r[i] == LowerChar(s[i])
  {
    seq(|s|, i requires 0 <= i < |s| => LowerChar(s[i]))
  }

  function LowerChar(c: char): char
  {
    if 'A' <= c <= 'Z' then (c as int + 32) as char else c
  }

  /** `toUpperCase` for the characters whose upper case is a single ASCII letter:
      `a`-`z`, dotless i (U+0131) and long s (U+017F). Every other character is kept;
      none of them maps to an ASCII letter or digit. */
  function UpperChar(c: char): (u: char)
    ensures 'A' <= u <= 'Z' <==> IsAsciiLetter(c) || c == '\U{0131}' || c == '\U{017F}'
    ensures IsDigit(u) <==> IsDigit(c)
  {
    if 'a' <= c <= 'z' then (c as int - 32) as char
    else if c == '\U{0131}' then 'I'
    else if c == '\U{017F}' then 'S'
    else c
  }

  function ToUpper(s: string): (r: string)
    ensures |r| == |s|
    ensures forall i :: 0 <= i < |s| ==> r[i] == UpperChar(s[i])
  {
    seq(|s|, i requires 0 <= i < |s| => UpperChar(s[i]))
  }

  predicate IsDigit(c: char) { '0' <= c <= '9' }

  predicate IsAsciiLetter(c: char) { 'a' <= c <= 'z' || 'A' <= c <= 'Z' }

  predicate IsLowerAscii(c: char) { 'a' <= c <= 'z' }

  predicate IsUpperAscii(c: char) { 'A' <= c <= 'Z' }

  // ---------------------------------------------------------------------------
  // parseInt

  /** The characters ECMAScript's StrWhiteSpaceChar accepts (white space and line terminators). */
  predicate IsWhiteSpace(c: char)
  {
    c == ' ' || c == '\t' || c == '\n' || c == '\r' || c == '\U{000B}' || c == '\U{000C}' ||
    c == '\U{00A0}' || c == '\U{FEFF}' || c == '\U{1680}' || ('\U{2000}' <= c <= '\U{200A}') ||
    c == '\U{2028}' || c == '\U{2029}' || c == '\U{202F}' || c == '\U{205F}' || c == '\U{3000}'
  }

  function TrimStart(s: string): (r: string)
    ensures r <= s || (|r| <= |s| && r == s[|s| - |r|..])
    ensures r != [] ==> !IsWhiteSpace(r[0])
    decreases |s|
  {
    if s != [] && IsWhiteSpace(s[0]) then TrimStart(s[1..]) else s
  }

  /** The value of `c` as a digit in base `radix` (10 or 16), if it is one. */
  function DigitValue(c: char, radix: nat): (d: Option<nat>)
    ensures d.Some? ==> d.value < radix || radix < 10
  {
    if '0' <= c <= '9' then (if (c as int - '0' as int) < radix then Some(c as int - '0' as int) else None)
    else if radix == 16 && 'a' <= c <= 'f' then Some(c as int - 'a' as int + 10)
    else if radix == 16 && 'A' <= c <= 'F' then Some(c as int - 'A' as int + 10)
    else None
  }

  /** Length of the longest prefix of `s` made of base-`radix` digits. */
  function DigitRun(s: string, radix: nat): (n: nat)
    ensures n <= |s|
    ensures forall i :: 0 <= i < n ==> DigitValue(s[i], radix).Some?
    ensures n < |s| ==> DigitValue(s[n], radix).None?
  {
    if s != [] && DigitValue(s[0], radix).Some? then 1 + DigitRun(s[1..], radix) else 0
  }

  /** The number the digits of `s` denote in base `radix`. */
  function DigitsValue(s: string, radix: nat): nat
    requires forall i :: 0 <= i < |s| ==> DigitValue(s[i], radix).Some?
  {
    if s == [] then 0
    else DigitsValue(s[..|s| - 1], radix) * radix + DigitValue(s[|s| - 1], radix).value
  }

  /** `parseInt(s, 10)` when `decimal` holds, `parseInt(s)` otherwise (then a `0x`/`0X`
      prefix selects base 16). `None` is NaN. Precision loss above 2^53 is not modelled. */
  function ParseInt(s: string, decimal: bool): (r: Option<int>)
  {
    var t := TrimStart(s);
    var negative := t != [] && t[0] == '-';
    var u := if t != [] && (t[0] == '-' || t[0] == '+') then t[1..] else t;
    var hex := !decimal && |u| >= 2 && u[0] == '0' && (u[1] == 'x' || u[1] == 'X');
    var radix := if hex then 16 else 10;
    var digits := if hex then u[2..] else u;
    var n := DigitRun(digits, radix);
    if n == 0 then None
    else
      var v := DigitsValue(digits[..n], radix);
      Some(if negative then -(v as int) else v)
  }

  /** The decimal numeral of `n`, as `String(n)` writes it. */
  function DecimalString(n: nat): (s: string)
    ensures s != [] && forall i :: 0 <= i < |s| ==> IsDigit(s[i])
  {
    if n < 10 then [('0' as int + n) as char]
    else DecimalString(n / 10) + [('0' as int + n % 10) as char]
  }

  lemma {:induction false} DecimalStringValue(n: nat)
    ensures forall i :: 0 <= i < |DecimalString(n)| ==> DigitValue(DecimalString(n)[i], 10).Some?
    ensures DigitsValue(DecimalString(n), 10) == n
  {
    var s := DecimalString(n);
    if n >= 10 {
      DecimalStringValue(n / 10);
      assert s[..|s| - 1] == DecimalString(n / 10);
    }
  }

  /** `parseInt` reads back every non-negative integer written in decimal, with or without radix. */
  lemma {:induction false} ParseIntDecimal(n: nat, decimal: bool)
    ensures ParseInt(DecimalString(n), decimal) == Some(n)
  {
    var s := DecimalString(n);
    DecimalStringValue(n);
    ParseIntDigits(s, decimal);
  }

  /** A plain run of decimal digits parses to the number it denotes. */
  lemma ParseIntDigits(s: string, decimal: bool)
    requires s != [] && forall i :: 0 <= i < |s| ==> IsDigit(s[i])
    ensures forall i :: 0 <= i < |s| ==> DigitValue(s[i], 10).Some?
    ensures ParseInt(s, decimal) == Some(DigitsValue(s, 10))
  {
    assert !IsWhiteSpace(s[0]);
    assert TrimStart(s) == s;
    assert s[0] != '-' && s[0] != '+';
    assert !(|s| >= 2 && (s[1] == 'x' || s[1] == 'X'));
    DigitRunAll(s, 10);
    assert s[..|s|] == s;
  }

  lemma {:induction false} DigitRunAll(s: string, radix: nat)
    requires forall i :: 0 <= i < |s| ==> DigitValue(s[i], radix).Some?
    ensures DigitRun(s, radix) == |s|
  {
    if s != [] {
      DigitRunAll(s[1..], radix);
    }
  }

  // ---------------------------------------------------------------------------
  // trim, Number and parseFloat

  function TrimEnd(s: string): (r: string)
    ensures r <= s
    ensures r != [] ==> !IsWhiteSpace(r[|r| - 1])
    decreases |s|
  {
    if s != [] && IsWhiteSpace(s[|s| - 1]) then TrimEnd(s[..|s| - 1]) else s
  }

  /** `String.prototype.trim`. */
  function Trim(s: string): (r: string)
  {
    TrimEnd(TrimStart(s))
  }

  /** A JavaScript number up to floating-point rounding: NaN, an infinity or a real. */
  datatype Number = NaN | Finite(value: real) | Infinite(negative: bool)

  /** `a < b`: false as soon as either side is NaN. */
  predicate Less(a: Number, b: Number)
  {
    match (a, b)
    case (NaN, _) => false
    case (_, NaN) => false
    case (Infinite(na), Infinite(nb)) => na && !nb
    case (Infinite(na), Finite(_)) => na
    case (Finite(_), Infinite(nb)) => !nb
    case (Finite(x), Finite(y)) => x < y
  }

  /** `a <= b`: false as soon as either side is NaN. */
  predicate AtMost(a: Number, b: Number)
  {
    !a.NaN? && !b.NaN? && !Less(b, a)
  }

  function Negate(x: Number): Number
  {
    match x
    case NaN => NaN
    case Finite(v) => Finite(-v)
    case Infinite(n) => Infinite(!n)
  }

  function Pow10(n: nat): (p: nat)
    ensures p >= 1
  {
    if n == 0 then 1 else 10 * Pow10(n - 1)
  }

  /** `m * 10^e`, the value of a literal with mantissa `m` and exponent `e`. */
  function Scale(m: real, e: int): real
  {
    if e >= 0 then m * Pow10(e) as real else m / Pow10(-e) as real
  }

  /** The exponent part `e[+-]digits` at the start of `s` and its length, or `(0, 0)`
      when `s` does not start with a complete one. */
  function ScanExponent(s: string): (r: (int, nat))
    ensures r.1 <= |s|
  {
    if s == [] || (s[0] != 'e' && s[0] != 'E') then (0, 0)
    else
      var signed := |s| >= 2 && (s[1] == '+' || s[1] == '-');
      var rest := if signed then s[2..] else s[1..];
      var k := DigitRun(rest, 10);
      if k == 0 then (0, 0)
      else
        var v := DigitsValue(rest[..k], 10);
        (if signed && s[1] == '-' then -(v as int) else v, (if signed then 2 else 1) + k)
  }

  /** The longest prefix of `s` made of digits with an optional fraction, or of a
      fraction alone: its value and its length. */
  function ScanMantissa(s: string): (r: Option<(real, nat)>)
    ensures r.Some? ==> 0 < r.value.1 <= |s|
  {
    var k1 := DigitRun(s, 10);
    var hasDot := k1 < |s| && s[k1] == '.';
    var k2 := if hasDot then DigitRun(s[k1 + 1..], 10) else 0;
    if k1 == 0 && k2 == 0 then None
    else
      var m := if hasDot then k1 + 1 + k2 else k1;
      var whole := DigitsValue(s[..k1], 10) as real;
      var fraction := if hasDot then DigitsValue(s[k1 + 1..m], 10) as real / Pow10(k2) as real else 0.0;
      Some((whole + fraction, m))
  }

  /** The longest prefix of `s` that is an unsigned decimal literal (`Infinity`, or a
      mantissa with an optional exponent): its value and its length. */
  function ScanDecimal(s: string): (r: Option<(Number, nat)>)
    ensures r.Some? ==> 0 < r.value.1 <= |s| && !r.value.0.NaN?
  {
    if "Infinity" <= s then Some((Infinite(false), 8))
    else
      match ScanMantissa(s)
      case None => None
      case Some((m, k)) =>
        var exponent := ScanExponent(s[k..]);
        Some((Finite(Scale(m, exponent.0)), k + exponent.1))
  }

  /** A leading sign: whether it is `-`, and the rest. */
  function Unsigned(t: string): (r: (bool, string))
    ensures |r.1| <= |t|
  {
    if t != [] && (t[0] == '-' || t[0] == '+') then (t[0] == '-', t[1..]) else (false, t)
  }

  /** `0x`, `0o` or `0b` followed by digits of that base, and nothing else. */
  function NonDecimal(t: string): Option<nat>
  {
    if |t| < 3 || t[0] != '0' then None
    else
      var radix := if t[1] == 'x' || t[1] == 'X' then 16
                   else if t[1] == 'o' || t[1] == 'O' then 8
                   else if t[1] == 'b' || t[1] == 'B' then 2
                   else 0;
      if radix == 0 || DigitRun(t[2..], radix) != |t| - 2 then None
      else Some(DigitsValue(t[2..], radix))
  }

  /** `Number(s)`: the whole trimmed string must be a numeric literal; a blank string is 0. */
  function ToNumber(s: string): Number
  {
    var t := Trim(s);
    if t == [] then Finite(0.0)
    else if NonDecimal(t).Some? then Finite(NonDecimal(t).value as real)
    else
      var (negative, u) := Unsigned(t);
      match ScanDecimal(u)
      case None => NaN
      case Some((v, n)) =>
        if n != |u| then NaN else if negative then Negate(v) else v
  }

  /** `parseFloat(s)`: the longest decimal literal after leading white space. */
  function ParseFloat(s: string): Number
  {
    var (negative, u) := Unsigned(TrimStart(s));
    match ScanDecimal(u)
    case None => NaN
    case Some((v, _)) => if negative then Negate(v) else v
  }

  /** `String(i)` for an integer. */
  function IntString(i: int): (s: string)
  {
    if i < 0 then "-" + DecimalString(-i) else DecimalString(i)
  }

  /** A run of decimal digits is its own mantissa. */
  lemma ScanMantissaDigits(s: string)
    requires s != [] && forall i :: 0 <= i < |s| ==> IsDigit(s[i])
    ensures forall i :: 0 <= i < |s| ==> DigitValue(s[i], 10).Some?
    ensures ScanMantissa(s) == Some((DigitsValue(s, 10) as real, |s|))
  {
    DigitRunAll(s, 10);
    assert s[..|s|] == s;
  }

  /** A run of decimal digits is its own decimal literal. */
  lemma ScanDigits(s: string)
    requires s != [] && forall i :: 0 <= i < |s| ==> IsDigit(s[i])
    ensures forall i :: 0 <= i < |s| ==> DigitValue(s[i], 10).Some?
    ensures ScanDecimal(s) == Some((Finite(DigitsValue(s, 10) as real), |s|))
  {
    assert s[0] != 'I';
    ScanMantissaDigits(s);
    assert ScanExponent(s[|s|..]) == (0, 0);
    var m := DigitsValue(s, 10) as real;
    assert Scale(m, 0) == m by { assert Pow10(0) == 1; }
  }

  /** `String(i)` has no white space to trim and no base prefix. */
  lemma IntStringShape(i: int)
    ensures TrimStart(IntString(i)) == IntString(i) && Trim(IntString(i)) == IntString(i)
    ensures NonDecimal(IntString(i)).None?
  {
    var n: nat := if i < 0 then -i else i;
    var d := DecimalString(n);
    var s := IntString(i);
    assert s[|s| - 1] == d[|d| - 1];
    assert !IsWhiteSpace(s[0]) && !IsWhiteSpace(s[|s| - 1]);
    DecimalStringLeading(n);
  }

  /** The decimal numeral of `|i|` and the sign that `String(i)` puts before it. */
  lemma IntStringParts(i: int) returns (d: string)
    ensures var n: nat := if i < 0 then -i else i; d == DecimalString(n)
    ensures Unsigned(IntString(i)) == (i < 0, d)
    ensures ScanDecimal(d) == Some((Finite((if i < 0 then -i else i) as real), |d|))
  {
    var n: nat := if i < 0 then -i else i;
    d := DecimalString(n);
    DecimalStringValue(n);
    ScanDigits(d);
    if i < 0 {
      assert IntString(i)[1..] == d;
    }
  }

  /** `Number` reads back every integer `String` writes. */
  lemma NumberReadsIntString(i: int)
    ensures ToNumber(IntString(i)) == Finite(i as real)
  {
    IntStringShape(i);
    var d := IntStringParts(i);
  }

  /** `parseFloat` reads back every integer `String` writes. */
  lemma ParseFloatReadsIntString(i: int)
    ensures ParseFloat(IntString(i)) == Finite(i as real)
  {
    IntStringShape(i);
    var d := IntStringParts(i);
  }

  /** `String(n)` never has a superfluous leading zero. */
  lemma {:induction false} DecimalStringLeading(n: nat)
    ensures DecimalString(n)[0] != '0' || n == 0
    ensures DecimalString(n)[0] == '0' ==> |DecimalString(n)| == 1
  {
    if n >= 10 {
      DecimalStringLeading(n / 10);
    }
  }

  /** `Number` reads a blank string as 0. */
  lemma NumberOfBlank()
    ensures ToNumber("") == Finite(0.0)
    ensures ToNumber(" ") == Finite(0.0)
  {
    assert TrimStart(" ") == "";
  }

  /** `Number` rejects trailing letters that `parseFloat` ignores. */
  lemma TrailingLetter()
    ensures ToNumber("1x") == NaN
    ensures ParseFloat("1x") == Finite(1.0)
  {
    assert TrimStart("1x") == "1x" && TrimEnd("1x") == "1x";
    assert DigitRun("x", 10) == 0;
    assert DigitRun("1x", 10) == 1;
    assert "1x"[..1] == "1";
    assert DigitsValue("1", 10) == 1;
    assert ScanMantissa("1x") == Some((1.0, 1));
    assert ScanExponent("1x"[1..]) == (0, 0);
    assert Scale(1.0, 0) == 1.0 by { assert Pow10(0) == 1; }
  }

  /** `Number` reads hexadecimal literals, `parseFloat` stops at the `x`. */
  lemma HexLiteral()
    ensures ToNumber("0x10") == Finite(16.0)
    ensures ParseFloat("0x10") == Finite(0.0)
  {
    assert TrimStart("0x10") == "0x10" && TrimEnd("0x10") == "0x10";
    assert "0x10"[2..] == "10";
    assert DigitRun("", 16) == 0;
    assert DigitRun("0", 16) == 1;
    assert DigitRun("10", 16) == 2;
    assert "10"[..1] == "1";
    assert DigitsValue("10", 16) == 16;
    assert DigitRun("x10", 10) == 0;
    assert DigitRun("0x10", 10) == 1;
    assert "0x10"[..1] == "0";
    assert DigitsValue("0", 10) == 0;
    assert ScanMantissa("0x10") == Some((0.0, 1));
    assert ScanExponent("0x10"[1..]) == (0, 0);
    assert Scale(0.0, 0) == 0.0;
  }

  /** `parseInt` reads back every integer `String` writes, with or without radix. */
  lemma ParseIntReadsIntString(i: int, decimal: bool)
    ensures ParseInt(IntString(i), decimal) == Some(i)
  {
    IntStringShape(i);
    var n: nat := if i < 0 then -i else i;
    var d := DecimalString(n);
    DecimalStringValue(n);
    DigitRunAll(d, 10);
    assert d[..|d|] == d;
    DecimalStringLeading(n);
    if i < 0 {
      assert IntString(i)[1..] == d;
    }
  }

  /** `String(i)` is made of digits and possibly a leading minus sign. */
  lemma IntStringDigits(i: int)
    ensures forall c :: c in IntString(i) ==> c == '-' || IsDigit(c)
  {
    var n: nat := if i < 0 then -i else i;
    assert forall c :: c in DecimalString(n) ==> IsDigit(c);
  }

  /** The digit run of a numeral ends where the numeral does. */
  lemma {:induction false} DigitRunPrefix(d: string, rest: string, radix: nat)
    requires forall i :: 0 <= i < |d| ==> DigitValue(d[i], radix).Some?
    requires rest == [] || DigitValue(rest[0], radix).None?
    ensures DigitRun(d + rest, radix) == |d|
  {
    if d != [] {
      assert (d + rest)[1..] == d[1..] + rest;
      DigitRunPrefix(d[1..], rest, radix);
    } else {
      assert d + rest == rest;
    }
  }

  /** The text of an integer followed by `rest` is a sign, the digits, then `rest`. */
  lemma IntStringThen(i: int, rest: string) returns (d: string)
    ensures d == DecimalString(if i < 0 then -i else i)
    ensures var s := IntString(i) + rest;
      TrimStart(s) == s && s != [] && (s[0] == '-' <==> i < 0) && s[0] != '+' &&
      (if i < 0 then s[1..] else s) == d + rest
  {
    IntStringShape(i);
    d := DecimalString(if i < 0 then -i else i);
    var s := IntString(i) + rest;
    assert s[0] == IntString(i)[0];
    if i < 0 {
      assert s[1..] == d + rest;
    }
  }

  /** `parseInt(s, 10)` ignores whatever follows the numeral of an integer. */
  lemma ParseIntIgnoresSuffix(i: int, rest: string)
    requires rest == [] || !IsDigit(rest[0])
    ensures ParseInt(IntString(i) + rest, true) == Some(i)
  {
    var d := IntStringThen(i, rest);
    var n: nat := if i < 0 then -i else i;
    DecimalStringValue(n);
    DigitRunPrefix(d, rest, 10);
    assert (d + rest)[..|d|] == d;
  }

  /** `parseInt(s, 10)` reads a hexadecimal literal as the 0 before its `x`. */
  lemma ParseIntDecimalHex(rest: string)
    ensures ParseInt("0x" + rest, true) == Some(0)
  {
    var s := "0x" + rest;
    assert TrimStart(s) == s;
    assert s[1..][0] == 'x';
    assert DigitRun(s, 10) == 1;
    assert s[..1] == "0";
    assert DigitsValue("0", 10) == 0;
  }
}
