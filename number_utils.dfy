// NumberUtils: integral number conversion with overflow checks, and text parsing
// dispatched on the target class.
module NumberUtils {
  import opened Wrappers
  import opened Classes
  import StringUtils

  /** The runtime class of a `java.lang.Number`. */
  datatype NumberKind = ByteK | ShortK | IntegerK | LongK | BigIntegerK | FloatK | DoubleK | BigDecimalK

  /**
   * A `java.lang.Number`. Integral kinds hold their exact value; `Float`, `Double`
   * and `BigDecimal` hold only the integral part (toward zero) of theirs.
   */
  datatype Number = Number(kind: NumberKind, value: int)

  const BYTE_MIN: int := -0x80
  const BYTE_MAX: int := 0x7F
  const SHORT_MIN: int := -0x8000
  const SHORT_MAX: int := 0x7FFF
  const INT_MIN: int := -0x8000_0000
  const INT_MAX: int := 0x7FFF_FFFF
  const LONG_MIN: int := -0x8000_0000_0000_0000
  const LONG_MAX: int := 0x7FFF_FFFF_FFFF_FFFF

  /** The class a number kind stands for. */
  function KindClass(k: NumberKind): Class
  {
    match k
    case ByteK => Wrapper(Byte) case ShortK => Wrapper(Short)
    case IntegerK => Wrapper(Int) case LongK => Wrapper(Long)
    case BigIntegerK => BigIntegerClass case FloatK => Wrapper(Float)
    case DoubleK => Wrapper(Double) case BigDecimalK => BigDecimalClass
  }

  /** A fixed-width value lies within the range of its width. */
  predicate ValidNumber(n: Number)
  {
    match n.kind
    case ByteK => BYTE_MIN <= n.value <= BYTE_MAX
    case ShortK => SHORT_MIN <= n.value <= SHORT_MAX
    case IntegerK => INT_MIN <= n.value <= INT_MAX
    case LongK => LONG_MIN <= n.value <= LONG_MAX
    case _ => true
  }

  predicate InLongRange(v: int) { LONG_MIN <= v <= LONG_MAX }

  /** The low-order 64 bits of `v`, read as a signed `long`. */
  function Wrap64(v: int): (r: int)
    ensures InLongRange(r)
    ensures InLongRange(v) ==> r == v
  {
    (v - LONG_MIN) % 0x1_0000_0000_0000_0000 + LONG_MIN
  }

  /** `v` saturated to the `long` range, as a floating-point `longValue()` does. */
  function Clamp64(v: int): (r: int)
    ensures InLongRange(r)
    ensures InLongRange(v) ==> r == v
  {
    if v < LONG_MIN then LONG_MIN else if v > LONG_MAX then LONG_MAX else v
  }

  /** `Number.longValue()`. */
  function LongValue(n: Number): (r: int)
    requires ValidNumber(n)
    ensures InLongRange(r)
    ensures InLongRange(n.value) ==> r == n.value
  {
    match n.kind
    case BigIntegerK => Wrap64(n.value)
    case BigDecimalK => Wrap64(n.value)
    case FloatK => Clamp64(n.value)
    case DoubleK => Clamp64(n.value)
    case _ => n.value
  }

  /**
   * `checkedLongValue`: a `BigInteger` or `BigDecimal` outside the `long` range is an
   * overflow; any other number gives its `longValue()`.
   */
  function CheckedLongValue(n: Number): (r: Result<int>)
    requires ValidNumber(n)
    ensures r.Err? <==> (n.kind == BigIntegerK || n.kind == BigDecimalK) && !InLongRange(n.value)
    ensures r.Err? ==> r.error == IllegalArgumentException
    ensures r.Ok? ==> r.value == LongValue(n)
  {
    if (n.kind == BigIntegerK || n.kind == BigDecimalK) && !InLongRange(n.value) then Err(IllegalArgumentException)
    else Ok(LongValue(n))
  }

  /** `targetClass.isInstance(number)`. */
  predicate IsInstance(target: Class, n: Number)
  {
    IsAssignableFrom(map[], target, KindClass(n.kind))
  }

  /** The floating targets whose conversions this model leaves out. */
  predicate IsFloatingTarget(c: Class)
  {
    c == Wrapper(Float) || c == Wrapper(Double) || c == BigDecimalClass
  }

  /** The fixed-width integral targets and their kinds and ranges. */
  predicate IsFixedTarget(c: Class)
  {
    c == Wrapper(Byte) || c == Wrapper(Short) || c == Wrapper(Int) || c == Wrapper(Long)
  }

  function FixedKind(c: Class): NumberKind
    requires IsFixedTarget(c)
  {
    if c == Wrapper(Byte) then ByteK else if c == Wrapper(Short) then ShortK
    else if c == Wrapper(Int) then IntegerK else LongK
  }

  function MinOf(c: Class): int
    requires IsFixedTarget(c)
  {
    if c == Wrapper(Byte) then BYTE_MIN else if c == Wrapper(Short) then SHORT_MIN
    else if c == Wrapper(Int) then INT_MIN else LONG_MIN
  }

  function MaxOf(c: Class): int
    requires IsFixedTarget(c)
  {
    if c == Wrapper(Byte) then BYTE_MAX else if c == Wrapper(Short) then SHORT_MAX
    else if c == Wrapper(Int) then INT_MAX else LONG_MAX
  }

  /**
   * `convertNumberToTargetClass` for integral targets (and for any class the number
   * already belongs to).
   */
  function ConvertNumberToTargetClass(n: Number, target: Class): (r: Result<Number>)
    requires ValidNumber(n)
    requires !IsFloatingTarget(target)
    ensures r.Ok? ==> ValidNumber(r.value)
    ensures r.Err? ==> r.error == IllegalArgumentException
    ensures r.Ok? && !IsInstance(target, n) ==> IsInstance(target, r.value)
  {
    if IsInstance(target, n) then Ok(n)
    else if target == Wrapper(Byte) || target == Wrapper(Short) || target == Wrapper(Int) then
      match CheckedLongValue(n)
      case Err(e) => Err(e)
      case Ok(v) =>
        if v < MinOf(target) || v > MaxOf(target) then Err(IllegalArgumentException)
        else Ok(Number(FixedKind(target), v))
    else if target == Wrapper(Long) then
      match CheckedLongValue(n)
      case Err(e) => Err(e)
      case Ok(v) => Ok(Number(LongK, v))
    else if target == BigIntegerClass then
      if n.kind == BigDecimalK then Ok(Number(BigIntegerK, n.value))
      else Ok(Number(BigIntegerK, LongValue(n)))
    else Err(IllegalArgumentException)
  }

  /** A number converted to a class it already belongs to comes back unchanged. */
  lemma ConvertToOwnClass(n: Number, target: Class)
    requires ValidNumber(n) && !IsFloatingTarget(target) && IsInstance(target, n)
    ensures ConvertNumberToTargetClass(n, target) == Ok(n)
  {
  }

  /** The kinds whose value is an exact integer. */
  predicate IsExactKind(k: NumberKind)
  {
    k == ByteK || k == ShortK || k == IntegerK || k == LongK || k == BigIntegerK || k == BigDecimalK
  }

  /**
   * For a Byte, Short, Integer or Long target, an exact value outside the target's
   * range overflows and an in-range one is kept.
   */
  lemma ConvertFixedRange(n: Number, target: Class)
    requires ValidNumber(n) && IsExactKind(n.kind) && IsFixedTarget(target)
    ensures ConvertNumberToTargetClass(n, target) ==
      if MinOf(target) <= n.value <= MaxOf(target) then Ok(Number(FixedKind(target), n.value))
      else Err(IllegalArgumentException)
  {
  }

  /** A BigInteger or BigDecimal outside the `long` range never converts to a fixed width. */
  lemma BigOutsideLongRejected(n: Number, target: Class)
    requires n.kind == BigIntegerK || n.kind == BigDecimalK
    requires !InLongRange(n.value) && IsFixedTarget(target)
    ensures ConvertNumberToTargetClass(n, target) == Err(IllegalArgumentException)
  {
  }

  /** A target outside the supported classes is rejected. */
  lemma ConvertUnsupportedTarget(n: Number, target: Class)
    requires ValidNumber(n) && !IsFloatingTarget(target) && !IsInstance(target, n)
    requires !IsFixedTarget(target) && target != BigIntegerClass
    ensures ConvertNumberToTargetClass(n, target) == Err(IllegalArgumentException)
  {
  }

  // ------------------------------------------------------------ JDK text parsing

  /** `Character.digit(c, radix)` for the ASCII digits and letters. */
  function DigitValue(c: char): int
  {
    if '0' <= c <= '9' then c as int - '0' as int
    else if 'a' <= c <= 'z' then c as int - 'a' as int + 10
    else if 'A' <= c <= 'Z' then c as int - 'A' as int + 10
    else -1
  }

  predicate IsDigit(c: char, radix: nat)
  {
    0 <= DigitValue(c) < radix
  }

  /** The value of a string of digits in `radix`, most significant first. */
  function DigitsValue(d: string, radix: nat): nat
    requires forall i :: 0 <= i < |d| ==> IsDigit(d[i], radix)
  {
    if d == [] then 0
    else
      assert IsDigit(d[|d| - 1], radix);
      DigitsValue(d[..|d| - 1], radix) * radix + DigitValue(d[|d| - 1])
  }

  /** A non-empty digit string in `radix`. */
  predicate AllDigits(d: string, radix: nat)
  {
    |d| > 0 && forall i :: 0 <= i < |d| ==> IsDigit(d[i], radix)
  }

  /**
   * `new BigInteger(s, radix)` (and `Long.parseLong` before its range check): one
   * optional leading sign, then at least one digit; anything else is a format error.
   */
  function ParseSigned(s: string, radix: nat): (r: Result<int>)
    ensures r.Err? ==> r.error == NumberFormatException
  {
    if |s| > 0 && (s[0] == '-' || s[0] == '+') then
      if AllDigits(s[1..], radix) then
        var v: int := DigitsValue(s[1..], radix);
        Ok(if s[0] == '-' then -v else v)
      else Err(NumberFormatException)
    else if AllDigits(s, radix) then Ok(DigitsValue(s, radix))
    else Err(NumberFormatException)
  }

  /** `Byte.valueOf` .. `Long.valueOf`: a signed decimal inside the type's range. */
  function ValueOf(s: string, target: Class): (r: Result<Number>)
    requires IsFixedTarget(target)
    ensures r.Ok? ==> ValidNumber(r.value) && r.value.kind == FixedKind(target)
    ensures r.Err? ==> r.error == NumberFormatException
  {
    match ParseSigned(s, 10)
    case Err(e) => Err(e)
    case Ok(v) => if MinOf(target) <= v <= MaxOf(target) then Ok(Number(FixedKind(target), v)) else Err(NumberFormatException)
  }

  /** `s.startsWith(prefix, index)`. */
  predicate StartsWith(s: string, prefix: string, index: nat)
  {
    index + |prefix| <= |s| && s[index..index + |prefix|] == prefix
  }

  /**
   * `Byte.decode` .. `Long.decode`: an optional sign, then "0x", "0X" or "#" for
   * hexadecimal, a leading "0" (with more after it) for octal, else decimal; a second
   * sign is a format error, and the value must fit the type.
   */
  function Decode(s: string, target: Class): (r: Result<Number>)
    requires IsFixedTarget(target)
    ensures r.Ok? ==> ValidNumber(r.value) && r.value.kind == FixedKind(target)
    ensures r.Err? ==> r.error == NumberFormatException
  {
    if |s| == 0 then Err(NumberFormatException)
    else
      var negative := s[0] == '-';
      var index := if s[0] == '-' || s[0] == '+' then 1 else 0;
      var (radix, start) :=
        if StartsWith(s, "0x", index) || StartsWith(s, "0X", index) then (16, index + 2)
        else if StartsWith(s, "#", index) then (16, index + 1)
        else if StartsWith(s, "0", index) && |s| > 1 + index then (8, index + 1)
        else (10, index);
      if start > |s| || StartsWith(s, "-", start) || StartsWith(s, "+", start) then Err(NumberFormatException)
      else if !AllDigits(s[start..], radix) then Err(NumberFormatException)
      else
        var v: int := DigitsValue(s[start..], radix);
        var signed := if negative then -v else v;
        if MinOf(target) <= signed <= MaxOf(target) then Ok(Number(FixedKind(target), signed))
        else Err(NumberFormatException)
  }

  /** `isHexNumber`: after an optional leading '-', the text starts with "0x", "0X" or "#". */
  predicate IsHexNumber(value: string)
  {
    var index := if StartsWith(value, "-", 0) then 1 else 0;
    StartsWith(value, "0x", index) || StartsWith(value, "0X", index) || StartsWith(value, "#", index)
  }

  /** The radix `decodeBigInteger` picks and the index its digits start at. */
  function DecodeRadix(value: string, index: nat): (nat, nat)
  {
    if StartsWith(value, "0x", index) || StartsWith(value, "0X", index) then (16, index + 2)
    else if StartsWith(value, "#", index) then (16, index + 1)
    else if StartsWith(value, "0", index) && |value| > 1 + index then (8, index + 1)
    else (10, index)
  }

  /**
   * `decodeBigInteger`: a leading '-' is noted and skipped, the radix prefix is read,
   * the rest is parsed by `new BigInteger(rest, radix)` (which takes a sign of its own)
   * and the result is negated when the '-' was there.
   */
  function DecodeBigInteger(value: string): (r: Result<int>)
    ensures r.Err? ==> r.error == NumberFormatException
  {
    var negative := StartsWith(value, "-", 0);
    var index := if negative then 1 else 0;
    var (radix, start) := DecodeRadix(value, index);
    if start > |value| then Err(NumberFormatException)
    else
      match ParseSigned(value[start..], radix)
      case Err(e) => Err(e)
      case Ok(v) => Ok(if negative then -v else v)
  }

  /** "0x" and "#" select radix 16 for the digits after them. */
  lemma DecodeBigIntegerHex(digits: string)
    requires AllDigits(digits, 16) && digits[0] != '-' && digits[0] != '+'
    ensures DecodeBigInteger("0x" + digits) == Ok(DigitsValue(digits, 16))
    ensures DecodeBigInteger("#" + digits) == Ok(DigitsValue(digits, 16))
  {
    var s, t := "0x" + digits, "#" + digits;
    assert s[0..2] == "0x" && s[2..] == digits && s[0] != '-';
    assert t[0..1] == "#" && t[1..] == digits && t[0] != '-';
    assert !StartsWith(t, "0x", 0) && !StartsWith(t, "0X", 0);
  }

  /** A leading "0" followed by more characters selects radix 8. */
  lemma DecodeBigIntegerOctal(digits: string)
    requires AllDigits(digits, 8)
    ensures DecodeBigInteger("0" + digits) == Ok(DigitsValue(digits, 8))
  {
    var s := "0" + digits;
    assert s[0..1] == "0" && s[1..] == digits && s[0] != '-';
    assert IsDigit(digits[0], 8);
    assert s[1] == digits[0];
    assert !StartsWith(s, "0x", 0) && !StartsWith(s, "0X", 0) && !StartsWith(s, "#", 0);
  }

  /** A leading '-' negates what the rest decodes to. */
  lemma DecodeBigIntegerNegated(s: string)
    requires !StartsWith(s, "-", 0)
    ensures DecodeBigInteger("-" + s) ==
      match DecodeBigInteger(s) case Ok(v) => Ok(-v) case Err(e) => Err(e)
  {
    var t := "-" + s;
    assert t[1..] == s;
    forall k: nat, p: string | |p| <= 2 ensures StartsWith(t, p, k + 1) == StartsWith(s, p, k) {
      if k + 1 + |p| <= |t| {
        assert t[k + 1..k + 1 + |p|] == s[k..k + |p|];
      }
    }
    var (radix, start) := DecodeRadix(s, 0);
    assert DecodeRadix(t, 1) == (radix, start + 1);
    if start <= |s| {
      assert t[start + 1..] == s[start..];
    }
  }

  /** Whether `parseNumber` hands this target to a floating-point parser, which is left out. */
  predicate IsFloatingParseTarget(c: Class)
  {
    IsFloatingTarget(c) || c == NumberClass
  }

  /**
   * `parseNumber(text, targetClass)`: all whitespace is removed, then the text is
   * decoded (hexadecimal form) or parsed as decimal for the integral targets; any
   * other class is rejected.
   */
  function ParseNumber(text: Option<string>, target: Option<Class>): (r: Result<Number>)
    requires target.Some? ==> !IsFloatingParseTarget(target.value)
    ensures text.None? || target.None? ==> r == Err(NullPointerException)
    ensures r.Ok? ==> ValidNumber(r.value) && IsInstance(target.value, r.value)
    ensures text.Some? && target.Some? && !IsFixedTarget(target.value) && target.value != BigIntegerClass
      ==> r == Err(IllegalArgumentException)
  {
    if text.None? || target.None? then Err(NullPointerException)
    else
      var trimmed := StringUtils.Filter(text.value, StringUtils.NotWhitespace());
      var c := target.value;
      if IsFixedTarget(c) then
        if IsHexNumber(trimmed) then Decode(trimmed, c) else ValueOf(trimmed, c)
      else if c == BigIntegerClass then
        match (if IsHexNumber(trimmed) then DecodeBigInteger(trimmed) else ParseSigned(trimmed, 10))
        case Err(e) => Err(e)
        case Ok(v) => Ok(Number(BigIntegerK, v))
      else Err(IllegalArgumentException)
  }

  /** Whitespace anywhere in the text never changes what `parseNumber` yields. */
  lemma ParseNumberIgnoresWhitespace(text: string, target: Class)
    requires !IsFloatingParseTarget(target)
    ensures ParseNumber(Some(text), Some(target))
         == ParseNumber(Some(StringUtils.Filter(text, StringUtils.NotWhitespace())), Some(target))
  {
    StringUtils.FilterIdempotent(text, StringUtils.NotWhitespace());
  }

  // ------------------------------------------------------------ decimal rendering

  /** The decimal digits of `n`, most significant first, without leading zeros. */
  function Digits(n: nat): (d: string)
    ensures AllDigits(d, 10) && DigitsValue(d, 10) == n
    ensures |d| > 1 ==> d[0] != '0'
  {
    var last := ['0' + (n % 10) as char];
    if n < 10 then last
    else
      var d := Digits(n / 10) + last;
      assert d[..|d| - 1] == Digits(n / 10);
      d
  }

  /** `toString()` of an integral number: an optional '-' and its decimal digits. */
  function DecimalString(v: int): (s: string)
    ensures |s| > 0
  {
    if v < 0 then "-" + Digits(-v) else Digits(v)
  }

  /** No character of a decimal rendering is whitespace, 'x', 'X' or '#'. */
  lemma DecimalStringChars(v: int)
    ensures forall i :: 0 <= i < |DecimalString(v)| ==>
      DecimalString(v)[i] == '-' || IsDigit(DecimalString(v)[i], 10)
  {
  }

  /** A decimal rendering never looks hexadecimal. */
  lemma DecimalStringNotHex(v: int)
    ensures !IsHexNumber(DecimalString(v))
  {
    var s := DecimalString(v);
    DecimalStringChars(v);
    var index := if StartsWith(s, "-", 0) then 1 else 0;
    if index < |s| {
      assert IsDigit(s[index], 10);
    }
    if index + 1 < |s| {
      assert IsDigit(s[index + 1], 10);
    }
  }

  /** The signed decimal parser reads a decimal rendering back exactly. */
  lemma ParseSignedDecimal(v: int)
    ensures ParseSigned(DecimalString(v), 10) == Ok(v)
  {
    var s := DecimalString(v);
    if v < 0 {
      assert s[1..] == Digits(-v);
    } else {
      assert IsDigit(s[0], 10);
    }
  }

  /** Text without whitespace and not in hexadecimal form goes to the decimal parsers. */
  lemma ParseNumberPlain(text: string, c: Class)
    requires !IsFloatingParseTarget(c)
    requires StringUtils.Filter(text, StringUtils.NotWhitespace()) == text && !IsHexNumber(text)
    ensures IsFixedTarget(c) ==> ParseNumber(Some(text), Some(c)) == ValueOf(text, c)
    ensures c == BigIntegerClass && ParseSigned(text, 10).Ok? ==>
      ParseNumber(Some(text), Some(c)) == Ok(Number(BigIntegerK, ParseSigned(text, 10).value))
  {
  }

  /** A plain signed decimal is parsed to its value for every integral class that can hold it. */
  lemma ParsePlainDecimal(s: string, n: Number)
    requires ValidNumber(n) && (IsFixedTarget(KindClass(n.kind)) || n.kind == BigIntegerK)
    requires StringUtils.Filter(s, StringUtils.NotWhitespace()) == s && !IsHexNumber(s)
    requires ParseSigned(s, 10) == Ok(n.value)
    ensures ParseNumber(Some(s), Some(KindClass(n.kind))) == Ok(n)
  {
    var c := KindClass(n.kind);
    ParseNumberPlain(s, c);
    if IsFixedTarget(c) {
      assert ValueOf(s, c) == Ok(n);
    }
  }

  /**
   * Parsing the decimal rendering of a valid integral number gives that number back,
   * whichever integral class it belongs to.
   */
  lemma ParseDecimalString(n: Number)
    requires ValidNumber(n) && (IsFixedTarget(KindClass(n.kind)) || n.kind == BigIntegerK)
    ensures ParseNumber(Some(DecimalString(n.value)), Some(KindClass(n.kind))) == Ok(n)
  {
    var s := DecimalString(n.value);
    DecimalStringChars(n.value);
    StringUtils.FilterKeepsAll(s, StringUtils.NotWhitespace());
    DecimalStringNotHex(n.value);
    ParseSignedDecimal(n.value);
    ParsePlainDecimal(s, n);
  }
}
