# ascertain: the assertion chain, modelled in Dafny

ascertain is a small PHP validation library. An object that can `export()` its
properties mixes in `Validator` and calls `assert()`, which builds an `Assert`
chain over a snapshot of those properties. The caller then selects a property
with `that()`, can guard the following checks with `when()`, and calls
`is<Test>(…, message)` or `isNot<Test>(…, message)`. Every such call goes
through the magic dispatcher `__call`. That dispatcher parses the method name,
pops the trailing message, calls `test<Test>` with the property's value
followed by the remaining arguments, and compares the result with the negation
flag. When the check fails, the chain throws `"<property> <message>"` if its
exception class is truthy, and otherwise appends the message to that
property's list in the error log.

The project is laid out as follows:

- `php_values.dfy` (module `PhpValues`): PHP values and the PHP conversions the
  chain uses. These are truthiness, the string cast, the saturating integer
  cast of strings, and ASCII lower-casing.
- `predicates.dfy` (module `Predicates`): the `test*` predicates, `strpos` and
  `stripos`, the case-insensitive lookup of `"test" . $name`, and the argument
  shapes each predicate accepts.
- `dispatch.dfy` (module `Dispatch`): the method-name parse by
  `/^is(Not)?(.*)$/i`, including its greedy `Not`, the `.` that stops at a
  newline, and the `$` that also matches before a final newline.
- `error_log.dfy` (module `ErrorLog`): the log of failed assertions. It is an
  insertion-ordered PHP array from property to messages, modelled as a list
  of entries with distinct properties.
- `ascertain.dfy` (module `Ascertain`): the chain's state as a value (`Chain`)
  with one function per operation, and `Dispatched` for `__call`. The class
  `Assert` holds the fields PHP updates in place, and each of its methods is
  proved to follow those functions. The module also states properties of
  whole sequences of checks (`RunChecks`).
- `validator.dfy` (module `Validator`): the `assert($e)` factory, the choice of
  error mode, and a small client that replays the accumulate-mode scenario of
  the test suite.
- `wrappers.dfy` (module `Wrappers`): `Option`.

Quirks of the code, each modelled as written and stated in a lemma:

- The `Not` in the name pattern is greedy. `isNothing` therefore parses as the
  negated test `hing`, which has no method, so it fails on every input.
  `isNotNothing` is the negated `testNothing`.
- When no `test<Name>` method exists, PHP falls back to `__call`, which
  returns the (truthy) chain. So the plain form of an unknown test never fails
  and the negated form always fails.
- A falsy `when()` stays in force for every later check until the next
  `that()`.
- `testScalar($v, $strictNulls)` with a truthy `$strictNulls` never holds,
  because `is_scalar` already excludes null.
- `testContains`'s third parameter is named `$ci`, but a truthy value means
  case-sensitive.

Only messages are stored in the log: a failed check records the popped
message and nothing else (src/Assert.php:235).

The test suite is out of step with the code:

- `isNothing` on an empty string fails. The test suite expects it to pass.
- The test suite calls `isBoolean`, `isFloat`, `isIp`, `isContaining`,
  `isMatching` and `isAny`, which have no `test*` method. It also calls
  `isLen` with one bound. The model treats these as the code does: unknown
  tests fall back, and a missing argument is a PHP argument-count error.

## Model

| member | source | states |
|---|---|---|
| `PhpValues.StringToInt` | src/Assert.php:132 | the `(int)` cast of a string always gives a 64-bit integer (out-of-range digits saturate) |
| `PhpValues.DecimalStringRoundTrip` | src/Assert.php:132 | the integer cast reads every 64-bit integer back from its string form |
| `PhpValues.EmptyStringForm` | src/Assert.php:113-115 | only null, false and "" have an empty string form |
| `Predicates.LookupFindsEveryTest` | src/Assert.php:231 | `"test" . $name` reaches each `test*` method under its own name |
| `Predicates.LookupResolvesOnlySuffixes` | src/Assert.php:231 | a name resolves to a predicate only when it spells that method's suffix, in any ASCII case |
| `Predicates.LookupIgnoresCase` | src/Assert.php:231 | method lookup ignores ASCII case |
| `Predicates.NothingIffEmpty` | src/Assert.php:113-115 | `testNothing` holds exactly for null, false and "" |
| `Predicates.IntegerStringIffCanonical` | src/Assert.php:131-133 | for a string, `testInteger` holds iff it is the canonical decimal form of a 64-bit integer |
| `Predicates.IntegerNonString` | src/Assert.php:131-133 | for a non-string, `testInteger` holds exactly for integers and true |
| `Predicates.StrictScalarNeverHolds` | src/Assert.php:141-143 | `testScalar($v, true)` is false for every value |
| `Predicates.StrPosFrom` | src/Assert.php:204 | `strpos` returns the first index where the needle occurs, and none when it occurs nowhere |
| `Predicates.StrPosIffOccurs` | src/Assert.php:204 | `strpos` succeeds exactly when the needle is a substring |
| `Predicates.ContainsIsSubstring` | src/Assert.php:203-205 | `testContains` is a substring test: case-sensitive for a truthy third argument, on ASCII-folded strings otherwise |
| `Dispatch.ParseMethodName` | src/Assert.php:226-227 | parsing returns the flag and test of every newline-free `is[Not]<test>`, except that a plain test starting with "not" reads as negated |
| `Dispatch.ParseMethodInverse` | src/Assert.php:226-227 | a name parses iff it starts with "is" (any case) and has no newline except a final one; the parse spells the name back up to case |
| `ErrorLog.RecordMessages` | src/Assert.php:235 | appending adds the message at the end of that property's list and leaves every other property's list alone |
| `ErrorLog.RecordKeyOrder` | src/Assert.php:235 | appending keeps every existing key in its place and puts a new property last, with that one message |
| `ErrorLog.RecordKeepsWellFormed` | src/Assert.php:235 | appending keeps the properties distinct and every list non-empty |
| `ErrorLog.RecordAddsOneMessage` | src/Assert.php:235 | a recorded failure adds exactly one message to the log |
| `ErrorLog.CountIsDistinctProperties` | src/Assert.php:57-59 | the number of log keys is the number of distinct failed properties |
| `ErrorLog.MessagesIffLogged` | src/Assert.php:64-66 | a property has messages exactly when it is a key of the log |
| `Ascertain.PopMessage` | src/Assert.php:229 | the message is the last argument and the rest precede it; with no arguments it is null |
| `Ascertain.PredicateArgs` | src/Assert.php:229-231 | the predicate receives the inspected value from the snapshot, then the arguments in order, without the message |
| `Ascertain.Dispatched` | src/Assert.php:225-239 | a check never changes the snapshot, cursor, guard or mode; it is inert unless it fails; on failure it throws `"<property> <message>"` with the log unchanged iff the class is truthy, else records exactly that message |
| `Ascertain.FailsIffEffect` | src/Assert.php:231-235 | a check records or throws exactly when it fails |
| `Ascertain.NegationIsInverse` | src/Assert.php:226-231 | `isX` fails iff test X is false and `isNotX` fails iff it is true, through the same predicate |
| `Ascertain.UnresolvedTest` | src/Assert.php:231-238 | with no `test<Name>` method, the plain form never fails and the negated form always fails |
| `Ascertain.ParseIsNothing` | src/Assert.php:226-227 | "isNothing" parses as the negated test "hing", which resolves to no method |
| `Ascertain.ParseIsNotNothing` | src/Assert.php:226-227 | "isNotNothing" parses as the negated `testNothing` |
| `Ascertain.IsNothingQuirk` | src/Assert.php:226-231 | `isNothing` always fails; `isNotNothing` fails exactly when `testNothing` holds |
| `Ascertain.BareIsComparesStrings` | src/Assert.php:104-106 | the bare name "is" calls `test()`, which fails iff the string forms differ |
| `Ascertain.IsLenFails` | src/Assert.php:161-174 | `isLen($min, $max, $msg)` passes the value, then the bounds, and fails exactly when the character count lies outside [min, max], bounds included |
| `Ascertain.IsRangeFails` | src/Assert.php:172-174 | `isRange($min, $max, $msg)` on an integer fails exactly when the value lies outside [min, max], bounds included |
| `Ascertain.GuardOffIsInert` | src/Assert.php:93-96 | after a falsy `when()`, any sequence of checks is inert: no predicate runs, nothing is recorded or thrown |
| `Ascertain.ThrowModeKeepsLog` | src/Assert.php:232-234 | in throw mode the log never changes, and a run throws exactly when one of its checks fails |
| `Ascertain.ThrowModeRaisesFirstFailure` | src/Assert.php:231-234 | a throw-mode run that throws raises the exception of its first failing check: every earlier check passed, and the message is `"<property> <message>"` of that check |
| `Ascertain.AccumulateModeNeverThrows` | src/Assert.php:232-235 | in accumulate mode nothing is thrown, only the log changes, and each property's messages only grow |
| `Ascertain.RunAcceptedIgnoresLog` | src/Assert.php:229-231 | whether a check's arguments fit its predicate does not depend on the log |
| `Ascertain.Assert.constructor` | src/Assert.php:49-52 | the snapshot is taken once from `export()`; the cursor is unset, the guard on and the log empty; the class name defaults to null, so `new Assert($t)` accumulates |
| `Ascertain.Assert.HasErrors` | src/Assert.php:57-59 | returns the number of distinct failed properties, and zero iff no property has a message |
| `Ascertain.Assert.GetErrors` | src/Assert.php:64-66 | returns the log, each failed property once with its messages in call order |
| `Ascertain.Assert.ResetErrors` | src/Assert.php:72-75 | empties the log and changes nothing else |
| `Ascertain.Assert.That` | src/Assert.php:82-86 | sets the inspected property and turns the guard back on, leaving the log |
| `Ascertain.Assert.When` | src/Assert.php:93-96 | sets the guard to the truth of its argument and changes nothing else |
| `Ascertain.Assert.Check` | src/Assert.php:225-239 | performs `Dispatched` in place: the log is unchanged on a throw, and otherwise unchanged or extended by exactly the popped message |
| `Validator.ExceptionClassArgument` | src/Validator.php:13 | an omitted argument names `\InvalidArgumentException`, which is truthy; a given one is used as is |
| `Validator.NewAssert` | src/Validator.php:13-15 | each call returns a fresh chain over the snapshot, with an empty log and the guard on |
| `Validator.ModeOfArgument` | src/Validator.php:13-14 | `assert()` never logs (throw mode); `assert(false)` or any falsy argument never throws (accumulate mode) |

## Left out

- `testNumeric`, `testPrintable`, `testEmail`, `testUrl` and `testRegex` wrap `is_numeric`, PCRE and `filter_var`, whose grammars are not modelled. Their truth value comes from a `Host` function that the caller passes to `Check`. Only their argument shapes are modelled: the count, and for `testPrintable` and `testRegex` string-like arguments.
- `testRegex` passes a literal `null` to `preg_match`'s by-reference `$matches` parameter (src/Assert.php:215), which PHP rejects at call time; the model gives `isRegex` a host truth value instead of that error.
- The `function_exists("mb_strlen")` probe: a length is the length of the character sequence.
- `new $exception(...)`: a throw is the outcome `Thrown(class, message)`. A class name that does not exist is not modelled.
- Floating-point values are not part of `Value`, so `testInteger(123.1)` from the test suite is not expressible.
- PHP argument errors are preconditions (`ArgsAccepted`, `CallAccepted`), not modelled outcomes. These are too few arguments for a predicate, an array where a built-in wants a string, and non-integer operands of `testRange`/`testLen`. Loose comparisons between strings and numbers are therefore not modelled.
- An undefined property reads as null, as PHP does; the notice PHP emits is not modelled.
- PHP version: string parameters of built-ins follow PHP 8 coercion (scalars and null become strings). `strpos` with an empty needle finds it at 0, as in PHP 8; PHP 7 returned false.
- `PhpValues.StringToInt` reads only an optional sign and leading digits. Leading whitespace and fractional or exponent forms are not read. This does not change `testInteger`, which holds exactly for canonical decimal strings whatever the cast does with other strings.
- `when()` stores only the truthiness of its argument. PHP stores the value itself but reads only its truthiness.
- Case folding in method lookup, the name pattern and `stripos` is ASCII only, as in PHP; other characters are compared as they are.
- Chaining (`return $this`) is implicit: the methods act on the object, and `Check` returns only how the call ended.
- The snapshot is passed in as the value `export()` returned; the testable object itself and its `export()` are not modelled.
- Method names that name real methods of `Assert` never reach `__call`. `Check` models whatever name does reach it.
