/**
 * The assertion chain (class Assert): a snapshot of a testable object's
 * properties, a cursor naming the inspected property, a guard set by
 * when(), an error mode given by an exception class name, and a log of
 * failed assertions. Every is(Not)<Test> call goes through one dispatcher.
 *
 * The chain's state is first described as a value (Chain) with one
 * function per operation; the class Assert then updates its fields in
 * place and is proved to follow those functions.
 */
module Ascertain {

  import opened Wrappers
  import opened PhpValues
  import opened Predicates
  import opened Dispatch
  import opened ErrorLog

  /** How a check call ends: the chain is returned, or the configured exception is thrown. */
  datatype Outcome = Ok | Thrown(exceptionClass: Value, message: string)

  /** The state of one chain. */
  datatype Chain = Chain(
    properties: map<string, Value>,  // the snapshot taken at construction
    inspected: string,               // the cursor; PHP's initial null behaves as ""
    condition: bool,                 // the truth of the last when() argument
    exceptionClass: Value,           // a truthy class name throws, a falsy one accumulates
    errors: Log)                     // failed assertions, per property

  /** The state after a call together with how the call ended. */
  datatype Step = Step(chain: Chain, outcome: Outcome)

  /** One is(Not)<Test> call: the method name and the arguments, message last. */
  datatype Invocation = Invocation(name: string, args: seq<Value>)

  /** new Assert($testable, $exceptionClass), where exported is $testable->export(). */
  function Fresh(exported: map<string, Value>, exceptionClass: Value): Chain
  {
    Chain(exported, "", true, exceptionClass, [])
  }

  /** that($property). */
  function Selected(c: Chain, property: string): Chain
  {
    c.(inspected := property, condition := true)
  }

  /** when($condition). */
  function Guarded(c: Chain, condition: Value): Chain
  {
    c.(condition := Truthy(condition))
  }

  /** resetErrors(). */
  function Cleared(c: Chain): Chain
  {
    c.(errors := [])
  }

  /** $properties[$p]; an undefined index reads as null. */
  function PropertyValue(properties: map<string, Value>, p: string): Value
  {
    if p in properties then properties[p] else Null
  }

  /** The value of the inspected property in the snapshot. */
  function Inspected(c: Chain): Value
  {
    PropertyValue(c.properties, c.inspected)
  }

  /** array_pop($args): the message (null when there are no arguments) and the arguments before it. */
  function PopMessage(args: seq<Value>): (r: (Value, seq<Value>))
    ensures |args| > 0 ==> r.1 + [r.0] == args
    ensures |args| == 0 ==> r == (Null, [])
  {
    if |args| == 0 then (Null, []) else (args[|args| - 1], args[..|args| - 1])
  }

  /** array_unshift of the inspected value onto the popped arguments:
      what the predicate is called with. */
  function PredicateArgs(c: Chain, args: seq<Value>): (r: seq<Value>)
    ensures |r| == if |args| == 0 then 1 else |args|
    ensures r[0] == Inspected(c)
    ensures forall k :: 0 < k < |r| ==> r[k] == args[k - 1]
  {
    [Inspected(c)] + PopMessage(args).1
  }

  /** Whether the call stays within what the predicate it reaches can take. */
  predicate CallAccepted(c: Chain, name: string, args: seq<Value>)
  {
    c.condition && ParseMethod(name).Some? ==>
      ArgsAccepted(LookupTest(ParseMethod(name).value.test), PredicateArgs(c, args))
  }

  /** Whether the call is a failed assertion: the guard is on, the name parses,
      and the predicate's truth equals the negation flag. */
  predicate Fails(c: Chain, name: string, args: seq<Value>, host: Host)
    requires CallAccepted(c, name, args)
  {
    && c.condition
    && ParseMethod(name).Some?
    && Evaluate(LookupTest(ParseMethod(name).value.test), PredicateArgs(c, args), host)
       == ParseMethod(name).value.negated
  }

  /** __call($name, $args). */
  function Dispatched(c: Chain, name: string, args: seq<Value>, host: Host): (r: Step)
    requires CallAccepted(c, name, args)
    ensures r.chain == c.(errors := r.chain.errors)
    ensures r.chain.errors == c.errors || r.chain.errors == Record(c.errors, c.inspected, PopMessage(args).0)
    ensures r.outcome.Thrown? ==>
      r.chain == c && r.outcome == Thrown(c.exceptionClass, c.inspected + " " + ToPhpString(PopMessage(args).0))
    ensures !Fails(c, name, args, host) ==> r == Step(c, Ok)
    ensures Fails(c, name, args, host) ==> (r.outcome.Thrown? <==> Truthy(c.exceptionClass))
    ensures WellFormed(c.errors) ==> WellFormed(r.chain.errors)
  {
    if !c.condition then Step(c, Ok)
    else match ParseMethod(name)
      case None => Step(c, Ok)
      case Some(p) =>
        var message := PopMessage(args).0;
        if Evaluate(LookupTest(p.test), PredicateArgs(c, args), host) != p.negated then Step(c, Ok)
        else if Truthy(c.exceptionClass) then Step(c, Thrown(c.exceptionClass, c.inspected + " " + ToPhpString(message)))
        else
          var errors := Record(c.errors, c.inspected, message);
          assert WellFormed(c.errors) ==> WellFormed(errors) by {
            if WellFormed(c.errors) {
              RecordKeepsWellFormed(c.errors, c.inspected, message);
            }
          }
          Step(c.(errors := errors), Ok)
  }

  /** Whether every call of a sequence, issued on the current field, is accepted. */
  predicate RunAccepted(c: Chain, calls: seq<Invocation>)
  {
    forall k :: 0 <= k < |calls| ==> CallAccepted(c, calls[k].name, calls[k].args)
  }

  /** Issues the calls in order on the current field, stopping at the first thrown exception. */
  function RunChecks(c: Chain, calls: seq<Invocation>, host: Host): Step
    requires RunAccepted(c, calls)
    decreases |calls|
  {
    if calls == [] then Step(c, Ok)
    else
      var s := Dispatched(c, calls[0].name, calls[0].args, host);
      if s.outcome.Thrown? then s
      else
        assert forall k :: 1 <= k < |calls| ==> CallAccepted(c, calls[k].name, calls[k].args);
        RunChecks(s.chain, calls[1..], host)
  }

  /** A call has an effect (a recorded message or a throw) exactly when it fails. */
  lemma FailsIffEffect(c: Chain, name: string, args: seq<Value>, host: Host)
    requires CallAccepted(c, name, args)
    ensures Fails(c, name, args, host) <==> Dispatched(c, name, args, host) != Step(c, Ok)
  {
    if Fails(c, name, args, host) && !Truthy(c.exceptionClass) {
      RecordAddsOneMessage(c.errors, c.inspected, PopMessage(args).0);
    }
  }

  /** isX and isNotX reach the same predicate and fail on complementary inputs. */
  lemma NegationIsInverse(c: Chain, test: string, args: seq<Value>, host: Host)
    requires '\n' !in test && !StartsIgnoreCase(test, "not") && c.condition
    requires CallAccepted(c, MethodName(false, test), args)
    ensures CallAccepted(c, MethodName(true, test), args)
    ensures Fails(c, MethodName(false, test), args, host) <==>
      !Evaluate(LookupTest(test), PredicateArgs(c, args), host)
    ensures Fails(c, MethodName(true, test), args, host) <==>
      Evaluate(LookupTest(test), PredicateArgs(c, args), host)
  {
    ParseMethodName(false, test);
    ParseMethodName(true, test);
  }

  /** A name whose test has no test* method: the plain form never fails
      and the negated form always fails, since the fallback is truthy. */
  lemma UnresolvedTest(c: Chain, name: string, args: seq<Value>, host: Host)
    requires c.condition && ParseMethod(name).Some?
    requires LookupTest(ParseMethod(name).value.test).Unresolved?
    ensures CallAccepted(c, name, args)
    ensures Fails(c, name, args, host) <==> ParseMethod(name).value.negated
  {
  }

  /** "isNothing" parses as the negated test "hing", which has no test* method. */
  lemma ParseIsNothing()
    ensures ParseMethod("isNothing") == Some(Parsed(true, "hing"))
    ensures LookupTest("hing").Unresolved?
  {
    assert "isNothing" == MethodName(false, "Nothing");
    assert "Nothing"[..3] == "Not" && "Nothing"[3..] == "hing";
    assert LowerAscii("Not") == "not";
    ParseMethodName(false, "Nothing");
    assert LowerAscii("hing") == "hing";
  }

  /** "isNotNothing" parses as the negated testNothing. */
  lemma ParseIsNotNothing()
    ensures ParseMethod("isNotNothing") == Some(Parsed(true, "Nothing"))
    ensures LookupTest("Nothing") == Nothing
  {
    assert "isNotNothing" == MethodName(true, "Nothing");
    ParseMethodName(true, "Nothing");
    LookupFindsEveryTest(Nothing);
  }

  /** The greedy "Not": isNothing is the negated unknown test "hing" and so
      always fails, while isNotNothing fails exactly when testNothing holds. */
  lemma IsNothingQuirk(c: Chain, args: seq<Value>, host: Host)
    requires c.condition && StringLike(Inspected(c))
    ensures CallAccepted(c, "isNothing", args) && Fails(c, "isNothing", args, host)
    ensures CallAccepted(c, "isNotNothing", args)
    ensures Fails(c, "isNotNothing", args, host) <==> TestNothing(Inspected(c))
  {
    ParseIsNothing();
    ParseIsNotNothing();
  }

  /** The bare name "is" reaches test(), string equality with the first argument. */
  lemma BareIsComparesStrings(c: Chain, expected: Value, message: Value, host: Host)
    requires c.condition && StringLike(Inspected(c)) && StringLike(expected)
    ensures CallAccepted(c, "is", [expected, message])
    ensures Fails(c, "is", [expected, message], host) <==> ToPhpString(Inspected(c)) != ToPhpString(expected)
  {
    assert "is" == MethodName(false, "");
    ParseMethodName(false, "");
    assert PredicateArgs(c, [expected, message]) == [Inspected(c), expected];
  }

  /** isLen($min, $max, $message) on a string: the value comes first, then the
      bounds, and the check fails exactly when the character count lies
      outside [min, max], both bounds included. */
  lemma IsLenFails(c: Chain, min: int, max: int, msg: Value, host: Host)
    requires c.condition && StringLike(Inspected(c))
    ensures CallAccepted(c, "isLen", [Int(min), Int(max), msg])
    ensures Fails(c, "isLen", [Int(min), Int(max), msg], host) <==>
      !(min <= |ToPhpString(Inspected(c))| <= max)
  {
    assert "isLen" == MethodName(false, "Len");
    assert "Len"[..3] == "Len" && LowerAscii("Len") == "len" && LowerAscii("not") == "not";
    assert !StartsIgnoreCase("Len", "not");
    ParseMethodName(false, "Len");
    assert ParseMethod("isLen") == Some(Parsed(false, "Len"));
    LookupFindsEveryTest(Len);
    assert PredicateArgs(c, [Int(min), Int(max), msg]) == [Inspected(c), Int(min), Int(max)];
  }

  /** isRange($min, $max, $message) on an integer fails exactly when the value
      lies outside [min, max], both bounds included. */
  lemma IsRangeFails(c: Chain, min: int, max: int, msg: Value, host: Host)
    requires c.condition && Inspected(c).Int?
    ensures CallAccepted(c, "isRange", [Int(min), Int(max), msg])
    ensures Fails(c, "isRange", [Int(min), Int(max), msg], host) <==>
      !(min <= Inspected(c).i <= max)
  {
    assert "isRange" == MethodName(false, "Range");
    assert "Range"[..3] == "Ran" && LowerAscii("Ran") == "ran" && LowerAscii("not") == "not";
    assert !StartsIgnoreCase("Range", "not");
    ParseMethodName(false, "Range");
    assert ParseMethod("isRange") == Some(Parsed(false, "Range"));
    LookupFindsEveryTest(Range);
    var args := [Inspected(c), Int(min), Int(max)];
    assert PredicateArgs(c, [Int(min), Int(max), msg]) == args;
    assert Evaluate(Range, args, host) == TestRange(Inspected(c).i, min, max);
  }

  /** After a falsy when(), every later check is inert until the next that(). */
  lemma {:induction false} GuardOffIsInert(c: Chain, calls: seq<Invocation>, host: Host)
    requires !c.condition
    ensures RunAccepted(c, calls)
    ensures RunChecks(c, calls, host) == Step(c, Ok)
  {
    if calls != [] {
      GuardOffIsInert(c, calls[1..], host);
    }
  }

  /** Whether some call of the sequence, issued on c, fails. */
  predicate SomeFails(c: Chain, calls: seq<Invocation>, host: Host)
    requires RunAccepted(c, calls)
  {
    exists k :: 0 <= k < |calls| && Fails(c, calls[k].name, calls[k].args, host)
  }

  lemma SomeFailsCons(c: Chain, calls: seq<Invocation>, host: Host)
    requires calls != [] && RunAccepted(c, calls)
    ensures RunAccepted(c, calls[1..])
    ensures SomeFails(c, calls, host) <==>
      Fails(c, calls[0].name, calls[0].args, host) || SomeFails(c, calls[1..], host)
  {
    assert RunAccepted(c, calls[1..]);
    if SomeFails(c, calls, host) {
      var k :| 0 <= k < |calls| && Fails(c, calls[k].name, calls[k].args, host);
      if k > 0 {
        assert calls[1..][k - 1] == calls[k];
      }
    }
    if SomeFails(c, calls[1..], host) {
      var j :| 0 <= j < |calls[1..]| && Fails(c, calls[1..][j].name, calls[1..][j].args, host);
      assert calls[1..][j] == calls[j + 1];
    }
  }

  /** In throw mode the log never changes, and a run throws exactly when one of its checks fails. */
  lemma {:induction false} ThrowModeKeepsLog(c: Chain, calls: seq<Invocation>, host: Host)
    requires Truthy(c.exceptionClass) && RunAccepted(c, calls)
    ensures RunChecks(c, calls, host).chain == c
    ensures RunChecks(c, calls, host).outcome.Thrown? <==> SomeFails(c, calls, host)
  {
    if calls != [] {
      SomeFailsCons(c, calls, host);
      ThrowModeKeepsLog(c, calls[1..], host);
    }
  }

  /** Whether the k-th call of the sequence is the first one that fails. */
  predicate FirstFailure(c: Chain, calls: seq<Invocation>, host: Host, k: nat)
    requires RunAccepted(c, calls) && k < |calls|
  {
    && Fails(c, calls[k].name, calls[k].args, host)
    && forall j :: 0 <= j < k ==> !Fails(c, calls[j].name, calls[j].args, host)
  }

  lemma FirstFailureCons(c: Chain, calls: seq<Invocation>, host: Host, k: nat)
    requires calls != [] && RunAccepted(c, calls) && k < |calls| - 1
    requires !Fails(c, calls[0].name, calls[0].args, host)
    requires RunAccepted(c, calls[1..]) && FirstFailure(c, calls[1..], host, k)
    ensures FirstFailure(c, calls, host, k + 1)
  {
    assert calls[1..][k] == calls[k + 1];
    forall j | 0 <= j < k + 1
      ensures !Fails(c, calls[j].name, calls[j].args, host)
    {
      if j > 0 {
        assert calls[j] == calls[1..][j - 1];
      }
    }
  }

  /** In throw mode the exception raised is the one of the first failing check:
      every check before it passed, and its message is that check's message. */
  lemma {:induction false} ThrowModeRaisesFirstFailure(c: Chain, calls: seq<Invocation>, host: Host)
    requires Truthy(c.exceptionClass) && RunAccepted(c, calls)
    ensures RunChecks(c, calls, host).outcome.Thrown? ==>
      exists k: nat :: k < |calls| && FirstFailure(c, calls, host, k)
        && RunChecks(c, calls, host).outcome
           == Thrown(c.exceptionClass, c.inspected + " " + ToPhpString(PopMessage(calls[k].args).0))
  {
    if calls != [] {
      assert RunAccepted(c, calls[1..]);
      var r := RunChecks(c, calls, host);
      if Fails(c, calls[0].name, calls[0].args, host) {
        assert FirstFailure(c, calls, host, 0);
      } else if r.outcome.Thrown? {
        assert r == RunChecks(c, calls[1..], host);
        ThrowModeRaisesFirstFailure(c, calls[1..], host);
        var i: nat :| i < |calls[1..]| && FirstFailure(c, calls[1..], host, i)
          && r.outcome == Thrown(c.exceptionClass, c.inspected + " " + ToPhpString(PopMessage(calls[1..][i].args).0));
        FirstFailureCons(c, calls, host, i);
        assert calls[1..][i] == calls[i + 1];
      }
    }
  }

  /** Acceptance of calls does not depend on the log. */
  lemma RunAcceptedIgnoresLog(c: Chain, errors: Log, calls: seq<Invocation>)
    requires RunAccepted(c, calls)
    ensures RunAccepted(c.(errors := errors), calls)
  {
    forall k | 0 <= k < |calls|
      ensures CallAccepted(c.(errors := errors), calls[k].name, calls[k].args)
    {
      assert PredicateArgs(c.(errors := errors), calls[k].args) == PredicateArgs(c, calls[k].args);
    }
  }

  /** In accumulate mode nothing is thrown, and each property's messages only grow. */
  lemma {:induction false} AccumulateModeNeverThrows(c: Chain, calls: seq<Invocation>, host: Host)
    requires !Truthy(c.exceptionClass) && RunAccepted(c, calls)
    ensures RunChecks(c, calls, host).outcome == Ok
    ensures RunChecks(c, calls, host).chain == c.(errors := RunChecks(c, calls, host).chain.errors)
    ensures forall p :: Messages(c.errors, p) <= Messages(RunChecks(c, calls, host).chain.errors, p)
    decreases |calls|
  {
    if calls != [] {
      var s := Dispatched(c, calls[0].name, calls[0].args, host);
      assert s.outcome == Ok;
      assert RunAccepted(c, calls[1..]);
      RunAcceptedIgnoresLog(c, s.chain.errors, calls[1..]);
      AccumulateModeNeverThrows(s.chain, calls[1..], host);
      var r := RunChecks(s.chain, calls[1..], host);
      assert RunChecks(c, calls, host) == r;
      forall p ensures Messages(c.errors, p) <= Messages(r.chain.errors, p) {
        RecordMessages(c.errors, c.inspected, PopMessage(calls[0].args).0, p);
        assert Messages(c.errors, p) <= Messages(s.chain.errors, p);
      }
    }
  }

  /** The chain object: the fields PHP's Assert updates in place. */
  class Assert {
    const properties: map<string, Value>
    const exceptionClass: Value
    var inspectedProperty: string
    var inspectCondition: bool
    var validationErrors: Log

    ghost predicate Valid()
      reads this
    {
      WellFormed(validationErrors)
    }

    /** The chain's state as a value. */
    ghost function State(): Chain
      reads this
    {
      Chain(properties, inspectedProperty, inspectCondition, exceptionClass, validationErrors)
    }

    /** Takes the snapshot once; the cursor is unset, the guard on, the log empty.
        Without a class name the chain accumulates (null is falsy). */
    constructor (exported: map<string, Value>, exceptionClass: Value := Null)
      ensures Valid() && State() == Fresh(exported, exceptionClass)
    {
      properties := exported;
      this.exceptionClass := exceptionClass;
      inspectedProperty := "";
      inspectCondition := true;
      validationErrors := [];
    }

    /** count($validationErrors): the number of distinct properties that failed. */
    method HasErrors() returns (count: nat)
      requires Valid()
      ensures count == |Logged(validationErrors)|
      ensures count == 0 <==> forall p :: Messages(validationErrors, p) == []
    {
      count := |validationErrors|;
      CountIsDistinctProperties(validationErrors);
      if count > 0 {
        MessagesIffLogged(validationErrors, validationErrors[0].property);
      } else {
        forall p ensures Messages(validationErrors, p) == [] {
          MessagesIffLogged(validationErrors, p);
        }
      }
    }

    /** The log, each failed property once with its messages in call order. */
    method GetErrors() returns (errors: Log)
      requires Valid()
      ensures errors == validationErrors && WellFormed(errors)
    {
      errors := validationErrors;
    }

    /** Empties the log and keeps everything else. */
    method ResetErrors()
      modifies this`validationErrors
      ensures Valid() && State() == Cleared(old(State()))
      ensures forall p :: Messages(validationErrors, p) == []
    {
      validationErrors := [];
    }

    /** Selects the inspected property and turns the guard back on. */
    method That(property: string)
      requires Valid()
      modifies this`inspectedProperty, this`inspectCondition
      ensures Valid()
      ensures State() == Selected(old(State()), property)
      ensures inspectedProperty == property && inspectCondition
      ensures validationErrors == old(validationErrors)
    {
      inspectCondition := true;
      inspectedProperty := property;
    }

    /** Sets the guard to the truth of condition. */
    method When(condition: Value)
      requires Valid()
      modifies this`inspectCondition
      ensures Valid()
      ensures State() == Guarded(old(State()), condition)
      ensures inspectCondition == Truthy(condition)
    {
      inspectCondition := Truthy(condition);
    }

    /** The dispatcher __call: parse the name, pop the message, prepend the
        inspected value, call the predicate and on failure throw or record. */
    method Check(name: string, args: seq<Value>, host: Host) returns (outcome: Outcome)
      requires Valid() && CallAccepted(State(), name, args)
      modifies this`validationErrors
      ensures Valid()
      ensures Step(State(), outcome) == Dispatched(old(State()), name, args, host)
      ensures outcome.Thrown? ==> validationErrors == old(validationErrors)
      ensures validationErrors == old(validationErrors)
           || validationErrors == Record(old(validationErrors), inspectedProperty, PopMessage(args).0)
    {
      outcome := Ok;
      if inspectCondition {
        var parsed := ParseMethod(name);
        if parsed.Some? {
          var arguments := args;
          var error := Null;
          if |arguments| > 0 {
            error := arguments[|arguments| - 1];
            arguments := arguments[..|arguments| - 1];
          }
          arguments := [PropertyValue(properties, inspectedProperty)] + arguments;
          assert arguments == PredicateArgs(State(), args);
          if Evaluate(LookupTest(parsed.value.test), arguments, host) == parsed.value.negated {
            if Truthy(exceptionClass) {
              outcome := Thrown(exceptionClass, inspectedProperty + " " + ToPhpString(error));
              return;
            }
            RecordKeepsWellFormed(validationErrors, inspectedProperty, error);
            validationErrors := Record(validationErrors, inspectedProperty, error);
          }
        }
      }
    }
  }
}
