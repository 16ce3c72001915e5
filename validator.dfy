/**
 * The Validator mixin: assert($e) builds a new chain over the object's
 * exported properties. Its exception class argument selects the mode:
 * omitted it names InvalidArgumentException (throw on first failure), a
 * falsy value makes the chain accumulate messages instead.
 */
module Validator {

  import opened Wrappers
  import opened PhpValues
  import opened Predicates
  import opened ErrorLog
  import Ascertain

  /** The default of assert()'s parameter. */
  const DefaultExceptionClass: string := "\\InvalidArgumentException"

  /** The exception class the chain is given: the argument, or the default when it is omitted. */
  function ExceptionClassArgument(e: Option<Value>): (r: Value)
    ensures e.None? ==> r == Str(DefaultExceptionClass) && Truthy(r)
    ensures e.Some? ==> r == e.value
  {
    if e.Some? then e.value else Str(DefaultExceptionClass)
  }

  /** assert($e) on an object whose export() returned exported: a fresh chain
      over that snapshot, with an empty log and the guard on. */
  method NewAssert(exported: map<string, Value>, e: Option<Value>) returns (a: Ascertain.Assert)
    ensures fresh(a) && a.Valid()
    ensures a.State() == Ascertain.Fresh(exported, ExceptionClassArgument(e))
    ensures a.properties == exported && a.validationErrors == [] && a.inspectCondition
  {
    a := new Ascertain.Assert(exported, ExceptionClassArgument(e));
  }

  /** assert() throws on the first failing check and never logs;
      assert(false), or any falsy argument, logs and never throws. */
  lemma ModeOfArgument(exported: map<string, Value>, e: Option<Value>, calls: seq<Ascertain.Invocation>, host: Host)
    requires Ascertain.RunAccepted(Ascertain.Fresh(exported, ExceptionClassArgument(e)), calls)
    ensures e.None? ==>
      Ascertain.RunChecks(Ascertain.Fresh(exported, ExceptionClassArgument(e)), calls, host).chain.errors == []
    ensures e.Some? && !Truthy(e.value) ==>
      Ascertain.RunChecks(Ascertain.Fresh(exported, ExceptionClassArgument(e)), calls, host).outcome == Ascertain.Ok
  {
    var c := Ascertain.Fresh(exported, ExceptionClassArgument(e));
    if Truthy(c.exceptionClass) {
      Ascertain.ThrowModeKeepsLog(c, calls, host);
    } else {
      Ascertain.AccumulateModeNeverThrows(c, calls, host);
    }
  }

  /** The accumulate-mode scenario of the test suite on an empty "nothing"
      property: isNotNothing records one message, hasErrors() counts one
      property, and resetErrors() empties the log. */
  method NothingScenario(host: Host)
  {
    var a := NewAssert(map["nothing" := Str("")], Some(Bool(false)));
    a.That("nothing");
    Ascertain.ParseIsNotNothing();
    var outcome := a.Check("isNotNothing", [Str("error")], host);
    assert outcome == Ascertain.Ok;
    var errors := a.GetErrors();
    assert errors == [Entry("nothing", [Str("error")])];
    LoggedCons(errors);
    var count := a.HasErrors();
    assert count == 1;
    a.ResetErrors();
    errors := a.GetErrors();
    assert errors == [];
  }
}
