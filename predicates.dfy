/**
 * The predicate library of the assertion class (its test* methods), the
 * case-insensitive lookup of "test<Name>" that the dispatcher performs, and
 * the argument shapes each predicate accepts.
 */
module Predicates {

  import opened Wrappers
  import opened PhpValues

  /** One entry per test* method, plus Unresolved for a name that has none. */
  datatype Test =
    | Equal       // test($v, $c)
    | Nothing     // testNothing($v)
    | Numeric     // testNumeric($v), host is_numeric
    | Integer     // testInteger($v)
    | Scalar      // testScalar($v, $strictNulls = false)
    | Printable   // testPrintable($v), host PCRE
    | Len         // testLen($v, $min, $max)
    | Range       // testRange($v, $min, $max)
    | Email       // testEmail($v, $options = null), host filter_var
    | Url         // testUrl($v, $options = null), host filter_var
    | Contains    // testContains($v, $n, $ci = true)
    | Regex       // testRegex($v, $regex, $flags = 0), host PCRE
    | Unresolved  // no such method: PHP falls back to __call

  /** The truth value the host's library gives a foreign predicate on its arguments. */
  type Host = (Test, seq<Value>) -> bool

  /** What follows "test" in the name of the PHP method implementing t. */
  function MethodSuffix(t: Test): string
    requires !t.Unresolved?
  {
    match t
    case Equal => ""
    case Nothing => "Nothing"
    case Numeric => "Numeric"
    case Integer => "Integer"
    case Scalar => "Scalar"
    case Printable => "Printable"
    case Len => "Len"
    case Range => "Range"
    case Email => "Email"
    case Url => "Url"
    case Contains => "Contains"
    case Regex => "Regex"
  }

  /** The method "test" + name, looked up as PHP does: ignoring ASCII case. */
  function LookupTest(name: string): Test
  {
    var l := LowerAscii(name);
    if l == "" then Equal
    else if l == "nothing" then Nothing
    else if l == "numeric" then Numeric
    else if l == "integer" then Integer
    else if l == "scalar" then Scalar
    else if l == "printable" then Printable
    else if l == "len" then Len
    else if l == "range" then Range
    else if l == "email" then Email
    else if l == "url" then Url
    else if l == "contains" then Contains
    else if l == "regex" then Regex
    else Unresolved
  }

  /** Whether the arguments have the count and the types the predicate's
      parameters need; anything else is a PHP argument-count or type error. */
  predicate ArgsAccepted(t: Test, args: seq<Value>)
  {
    match t
    case Equal => |args| >= 2 && StringLike(args[0]) && StringLike(args[1])
    case Nothing => |args| >= 1 && StringLike(args[0])
    case Numeric => |args| >= 1
    case Integer => |args| >= 1
    case Scalar => |args| >= 1
    case Printable => |args| >= 1 && StringLike(args[0])
    case Len => |args| >= 3 && StringLike(args[0]) && args[1].Int? && args[2].Int?
    case Range => |args| >= 3 && args[0].Int? && args[1].Int? && args[2].Int?
    case Email => |args| >= 1
    case Url => |args| >= 1
    case Contains => |args| >= 2 && StringLike(args[0]) && StringLike(args[1])
    case Regex => |args| >= 2 && StringLike(args[0]) && StringLike(args[1])
    case Unresolved => true
  }

  /** !strcmp($v, $c): the string forms are equal. */
  predicate TestEqual(v: Value, c: Value)
  {
    ToPhpString(v) == ToPhpString(c)
  }

  /** !strlen($v). */
  predicate TestNothing(v: Value)
  {
    |ToPhpString(v)| == 0
  }

  /** (string) $v === (string)(int) $v. */
  predicate TestInteger(v: Value)
  {
    ToPhpString(v) == DecimalString(IntCast(v))
  }

  /** is_scalar($v), which is false for null and arrays. */
  predicate IsScalar(v: Value)
  {
    v.Bool? || v.Int? || v.Str?
  }

  /** is_scalar($v) && (!$strictNulls || !isset($v)). */
  predicate TestScalar(v: Value, strictNulls: Value)
  {
    IsScalar(v) && (!Truthy(strictNulls) || v.Null?)
  }

  /** $v >= $min && $v <= $max on integers. */
  predicate TestRange(v: int, min: int, max: int)
  {
    v >= min && v <= max
  }

  /** testRange applied to the character count of $v. */
  predicate TestLen(v: Value, min: int, max: int)
  {
    TestRange(|ToPhpString(v)|, min, max)
  }

  /** Whether needle occurs in haystack starting at index k. */
  predicate OccursAt(haystack: string, needle: string, k: nat)
  {
    k + |needle| <= |haystack| && haystack[k..k + |needle|] == needle
  }

  /** strpos from index i: the first index at or after i where needle occurs. */
  function StrPosFrom(haystack: string, needle: string, i: nat): (r: Option<nat>)
    requires i <= |haystack| + 1
    ensures r.Some? ==> i <= r.value && OccursAt(haystack, needle, r.value)
    ensures r.Some? ==> forall k :: i <= k < r.value ==> !OccursAt(haystack, needle, k)
    ensures r.None? ==> forall k :: i <= k ==> !OccursAt(haystack, needle, k)
    decreases |haystack| + 1 - i
  {
    if i + |needle| > |haystack| then None
    else if haystack[i..i + |needle|] == needle then Some(i)
    else StrPosFrom(haystack, needle, i + 1)
  }

  /** strpos($h, $n): the first index of needle in haystack, or none. */
  function StrPos(haystack: string, needle: string): Option<nat>
  {
    StrPosFrom(haystack, needle, 0)
  }

  /** stripos($h, $n): strpos after ASCII case folding of both. */
  function StrIPos(haystack: string, needle: string): Option<nat>
  {
    StrPos(LowerAscii(haystack), LowerAscii(needle))
  }

  /** ($ci ? strpos($v, $n) : stripos($v, $n)) !== false; a truthy $ci means case-sensitive. */
  predicate TestContains(v: Value, n: Value, ci: Value)
  {
    var h := ToPhpString(v);
    var needle := ToPhpString(n);
    (if Truthy(ci) then StrPos(h, needle) else StrIPos(h, needle)).Some?
  }

  /** The truth value of calling "test" + name with the given arguments:
      the predicate's result, the host's for a foreign one, and for an
      unresolved name the chain object that __call returns, which is truthy. */
  predicate Evaluate(t: Test, args: seq<Value>, host: Host)
    requires ArgsAccepted(t, args)
  {
    match t
    case Equal => TestEqual(args[0], args[1])
    case Nothing => TestNothing(args[0])
    case Integer => TestInteger(args[0])
    case Scalar => TestScalar(args[0], if |args| > 1 then args[1] else Bool(false))
    case Len => TestLen(args[0], args[1].i, args[2].i)
    case Range => TestRange(args[0].i, args[1].i, args[2].i)
    case Contains => TestContains(args[0], args[1], if |args| > 2 then args[2] else Bool(true))
    case Unresolved => true
    case _ => host(t, args)
  }

  /** Every test* method is found under its own name. */
  lemma LookupFindsEveryTest(t: Test)
    requires !t.Unresolved?
    ensures LookupTest(MethodSuffix(t)) == t
  {
    if t.Equal? || t.Nothing? || t.Numeric? || t.Integer? {
      LookupFindsFirst(t);
    } else if t.Scalar? || t.Printable? || t.Len? || t.Range? {
      LookupFindsMiddle(t);
    } else {
      LookupFindsLast(t);
    }
  }

  // LookupFindsEveryTest, split in three to keep each proof small.
  lemma LookupFindsFirst(t: Test)
    requires t.Equal? || t.Nothing? || t.Numeric? || t.Integer?
    ensures LookupTest(MethodSuffix(t)) == t
  {
    match t
    case Equal =>
    case Nothing => assert LowerAscii("Nothing") == "nothing";
    case Numeric => assert LowerAscii("Numeric") == "numeric";
    case Integer => assert LowerAscii("Integer") == "integer";
  }

  lemma LookupFindsMiddle(t: Test)
    requires t.Scalar? || t.Printable? || t.Len? || t.Range?
    ensures LookupTest(MethodSuffix(t)) == t
  {
    match t
    case Scalar => assert LowerAscii("Scalar") == "scalar";
    case Printable => assert LowerAscii("Printable") == "printable";
    case Len => assert LowerAscii("Len") == "len";
    case Range => assert LowerAscii("Range") == "range";
  }

  lemma LookupFindsLast(t: Test)
    requires t.Email? || t.Url? || t.Contains? || t.Regex?
    ensures LookupTest(MethodSuffix(t)) == t
  {
    match t
    case Email => assert LowerAscii("Email") == "email";
    case Url => assert LowerAscii("Url") == "url";
    case Contains => assert LowerAscii("Contains") == "contains";
    case Regex => assert LowerAscii("Regex") == "regex";
  }

  /** A name resolves only when it spells a test* suffix, in any case. */
  lemma LookupResolvesOnlySuffixes(name: string)
    requires !LookupTest(name).Unresolved?
    ensures EqualsIgnoreCase(name, MethodSuffix(LookupTest(name)))
  {
    LookupFindsEveryTest(LookupTest(name));
  }

  /** Names equal up to ASCII case resolve to the same predicate. */
  lemma LookupIgnoresCase(a: string, b: string)
    requires EqualsIgnoreCase(a, b)
    ensures LookupTest(a) == LookupTest(b)
  {
  }

  /** testNothing holds exactly for null, false and the empty string. */
  lemma NothingIffEmpty(v: Value)
    requires StringLike(v)
    ensures TestNothing(v) <==> v == Null || v == Bool(false) || v == Str("")
  {
    EmptyStringForm(v);
  }

  /** For a string, testInteger holds exactly when it is the canonical
      decimal form of a 64-bit integer. */
  lemma IntegerStringIffCanonical(s: string)
    ensures TestInteger(Str(s)) <==> IsCanonicalInt(s)
  {
    if TestInteger(Str(s)) {
      var n := StringToInt(s);
      assert MinInt <= n <= MaxInt && DecimalString(n) == s;
    }
    if IsCanonicalInt(s) {
      var n :| MinInt <= n <= MaxInt && DecimalString(n) == s;
      DecimalStringRoundTrip(n);
    }
  }

  /** For a value that is not a string, testInteger holds exactly for integers and true. */
  lemma IntegerNonString(v: Value)
    requires !v.Str?
    ensures TestInteger(v) <==> v.Int? || v == Bool(true)
  {
    match v
    case Null => assert DecimalString(0) == "0";
    case Bool(b) => assert DecimalString(0) == "0" && DecimalString(1) == "1";
    case Int(_) =>
    case Arr(a) =>
      assert DecimalString(0) == "0" && DecimalString(1) == "1";
      assert "Array"[0] == 'A';
  }

  /** With strictNulls truthy, testScalar holds of no value at all. */
  lemma StrictScalarNeverHolds(v: Value, strictNulls: Value)
    requires Truthy(strictNulls)
    ensures !TestScalar(v, strictNulls)
  {
  }

  /** strpos finds needle exactly when it occurs somewhere in haystack. */
  lemma StrPosIffOccurs(haystack: string, needle: string)
    ensures StrPos(haystack, needle).Some? <==> exists k :: OccursAt(haystack, needle, k)
  {
  }

  /** testContains is a substring test: case-sensitive when the third
      argument is truthy, on ASCII-folded strings otherwise. */
  lemma ContainsIsSubstring(v: Value, n: Value, ci: Value)
    ensures Truthy(ci) ==>
      (TestContains(v, n, ci) <==> exists k :: OccursAt(ToPhpString(v), ToPhpString(n), k))
    ensures !Truthy(ci) ==>
      (TestContains(v, n, ci) <==> exists k :: OccursAt(LowerAscii(ToPhpString(v)), LowerAscii(ToPhpString(n)), k))
  {
    StrPosIffOccurs(ToPhpString(v), ToPhpString(n));
    StrPosIffOccurs(LowerAscii(ToPhpString(v)), LowerAscii(ToPhpString(n)));
  }
}
