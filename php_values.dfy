/**
 * PHP values as they reach the assertion chain, and the handful of PHP
 * conversions the chain relies on: truthiness, the string cast, the integer
 * cast and ASCII case folding.
 */
module PhpValues {

  /** A PHP value: what an exported property or a check argument can be.
      Floats are not part of the model. */
  datatype Value = Null | Bool(b: bool) | Int(i: int) | Str(s: string) | Arr(elements: seq<Value>)

  /** The bounds of PHP's 64-bit integers. */
  const MinInt: int := -0x8000_0000_0000_0000
  const MaxInt: int := 0x7fff_ffff_ffff_ffff

  /** PHP's conversion to bool: null, false, 0, "", "0" and the empty array are falsy. */
  predicate Truthy(v: Value)
  {
    match v
    case Null => false
    case Bool(b) => b
    case Int(i) => i != 0
    case Str(s) => s != "" && s != "0"
    case Arr(a) => a != []
  }

  /** Whether PHP accepts the value where a built-in wants a string
      (scalars and null are coerced; an array is a type error). */
  predicate StringLike(v: Value)
  {
    !v.Arr?
  }

  predicate IsDigit(c: char)
  {
    '0' <= c <= '9'
  }

  predicate AllDigits(s: string)
  {
    forall k :: 0 <= k < |s| ==> IsDigit(s[k])
  }

  function DigitChar(d: nat): (c: char)
    requires d < 10
    ensures IsDigit(c)
  {
    ('0' as int + d) as char
  }

  function DigitValue(c: char): (d: nat)
    requires IsDigit(c)
    ensures d < 10 && DigitChar(d) == c
  {
    c as int - '0' as int
  }

  /** The decimal digits of n, most significant first, without leading zeros. */
  function Digits(n: nat): (r: string)
    ensures |r| > 0 && AllDigits(r)
    ensures r[0] == '0' ==> n == 0
  {
    if n < 10 then [DigitChar(n)] else Digits(n / 10) + [DigitChar(n % 10)]
  }

  /** PHP's string form of an integer: an optional minus sign and its digits. */
  function DecimalString(n: int): (r: string)
  {
    if n < 0 then "-" + Digits(-n) else Digits(n)
  }

  /** The number a sequence of decimal digits denotes. */
  function DigitsValue(ds: string): nat
    requires AllDigits(ds)
  {
    if ds == [] then 0 else DigitsValue(ds[..|ds| - 1]) * 10 + DigitValue(ds[|ds| - 1])
  }

  /** The longest prefix of s made of decimal digits. */
  function LeadingDigits(s: string): (r: string)
    ensures r <= s && AllDigits(r)
    ensures |r| < |s| ==> !IsDigit(s[|r|])
  {
    if s == [] || !IsDigit(s[0]) then [] else [s[0]] + LeadingDigits(s[1..])
  }

  /** Clamps x into the 64-bit range, as PHP does for an out-of-range numeric string. */
  function Saturate(x: int): (r: int)
    ensures MinInt <= r <= MaxInt
    ensures MinInt <= x <= MaxInt ==> r == x
  {
    if x < MinInt then MinInt else if x > MaxInt then MaxInt else x
  }

  /** PHP's (int) cast of a string: an optional sign followed by the leading
      decimal digits, saturated to the 64-bit range. */
  function StringToInt(s: string): (r: int)
    ensures MinInt <= r <= MaxInt
  {
    if |s| > 0 && s[0] == '-' then Saturate(-(DigitsValue(LeadingDigits(s[1..])) as int))
    else if |s| > 0 && s[0] == '+' then Saturate(DigitsValue(LeadingDigits(s[1..])))
    else Saturate(DigitsValue(LeadingDigits(s)))
  }

  /** PHP's (int) cast. */
  function IntCast(v: Value): int
  {
    match v
    case Null => 0
    case Bool(b) => if b then 1 else 0
    case Int(i) => i
    case Str(s) => StringToInt(s)
    case Arr(a) => if a == [] then 0 else 1
  }

  /** PHP's (string) cast and string interpolation ("Array" for an array). */
  function ToPhpString(v: Value): string
  {
    match v
    case Null => ""
    case Bool(b) => if b then "1" else ""
    case Int(i) => DecimalString(i)
    case Str(s) => s
    case Arr(_) => "Array"
  }

  /** ASCII lower-casing, as PHP applies to method names and to stripos. */
  function LowerChar(c: char): char
  {
    if 'A' <= c <= 'Z' then (c as int + 32) as char else c
  }

  function LowerAscii(s: string): (r: string)
    ensures |r| == |s|
    ensures forall k :: 0 <= k < |s| ==> r[k] == LowerChar(s[k])
  {
    seq(|s|, k requires 0 <= k < |s| => LowerChar(s[k]))
  }

  /** ASCII case-insensitive equality of two strings. */
  predicate EqualsIgnoreCase(a: string, b: string)
  {
    LowerAscii(a) == LowerAscii(b)
  }

  /** A string is a canonical integer when it is the string form of some 64-bit integer. */
  ghost predicate IsCanonicalInt(s: string)
  {
    exists n :: MinInt <= n <= MaxInt && DecimalString(n) == s
  }

  lemma {:induction false} DigitsRoundTrip(n: nat)
    ensures DigitsValue(Digits(n)) == n
  {
    if n >= 10 {
      DigitsRoundTrip(n / 10);
      var d := Digits(n);
      assert d[..|d| - 1] == Digits(n / 10);
    }
  }

  lemma {:induction false} LeadingDigitsOfDigits(ds: string)
    requires AllDigits(ds)
    ensures LeadingDigits(ds) == ds
  {
    if ds != [] {
      LeadingDigitsOfDigits(ds[1..]);
      assert [ds[0]] + ds[1..] == ds;
    }
  }

  /** The integer cast reads back every 64-bit integer from its string form. */
  lemma DecimalStringRoundTrip(n: int)
    requires MinInt <= n <= MaxInt
    ensures StringToInt(DecimalString(n)) == n
  {
    var ds := Digits(if n < 0 then -n else n);
    LeadingDigitsOfDigits(ds);
    DigitsRoundTrip(if n < 0 then -n else n);
    assert DigitsValue(LeadingDigits(ds)) == if n < 0 then -n else n;
    if n < 0 {
      var s := DecimalString(n);
      assert s[0] == '-' && s[1..] == ds;
    } else {
      assert DecimalString(n) == ds && IsDigit(ds[0]);
    }
  }

  /** Only null, false and "" have an empty string form. */
  lemma EmptyStringForm(v: Value)
    ensures ToPhpString(v) == "" <==> v == Null || v == Bool(false) || v == Str("")
  {
    if v.Int? {
      assert |Digits(if v.i < 0 then -v.i else v.i)| > 0;
    }
  }
}
