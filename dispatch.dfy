/**
 * The name parse of the dispatcher: a method name is matched against the
 * case-insensitive PCRE pattern ^is(Not)?(.*)$, whose optional "Not" is
 * greedy, whose "." stops at a newline and whose "$" also matches before a
 * final newline.
 */
module Dispatch {

  import opened Wrappers
  import opened PhpValues

  /** A matched method name: the negation flag and the test name after it. */
  datatype Parsed = Parsed(negated: bool, test: string)

  /** Whether s starts with p, ignoring ASCII case. */
  predicate StartsIgnoreCase(s: string, p: string)
  {
    |p| <= |s| && EqualsIgnoreCase(s[..|p|], p)
  }

  /** The text "$" can close on: all of s, or s less one final newline. */
  function BeforeFinalNewline(s: string): (r: string)
    ensures r <= s && |s| - 1 <= |r|
  {
    if |s| > 0 && s[|s| - 1] == '\n' then s[..|s| - 1] else s
  }

  /** The match of ^is(Not)?(.*)$ with the i flag, or None when it does not match. */
  function ParseMethod(name: string): Option<Parsed>
  {
    if !StartsIgnoreCase(name, "is") then None
    else
      var body := BeforeFinalNewline(name[2..]);
      if '\n' in body then None
      else if StartsIgnoreCase(body, "not") then Some(Parsed(true, body[3..]))
      else Some(Parsed(false, body))
  }

  /** The method name a caller writes for a test: "is", then "Not" when negated, then the test. */
  function MethodName(negated: bool, test: string): string
  {
    "is" + (if negated then "Not" else "") + test
  }

  /** Parsing gives back the negation flag and the test of every
      newline-free name, except that a plain name whose test starts with
      "not" is read as the negated form of the rest. */
  lemma {:induction false} ParseMethodName(negated: bool, test: string)
    requires '\n' !in test
    ensures ParseMethod(MethodName(negated, test)) ==
      if !negated && StartsIgnoreCase(test, "not") then Some(Parsed(true, test[3..]))
      else Some(Parsed(negated, test))
  {
    var name := MethodName(negated, test);
    assert name[..2] == "is";
    assert LowerAscii("is") == LowerAscii(name[..2]);
    var rest := name[2..];
    if negated {
      assert rest == "Not" + test;
      assert rest[..3] == "Not";
      assert LowerAscii("Not") == "not" && LowerAscii("not") == "not";
      assert rest[3..] == test;
    } else {
      assert rest == test;
    }
    assert |rest| > 0 ==> rest[|rest| - 1] != '\n' by {
      if |rest| > 0 {
        assert rest[|rest| - 1] in rest;
        if negated { assert rest[|rest| - 1] in "Not" || rest[|rest| - 1] in test; }
      }
    }
    assert '\n' !in rest by {
      if negated {
        forall k | 0 <= k < |rest| ensures rest[k] != '\n' {
          if k >= 3 { assert rest[k] == test[k - 3]; }
        }
      }
    }
  }

  /** A name parses exactly when it starts with "is" in any case and has no
      newline other than one at its very end; a parse then spells the name
      back, up to ASCII case and that newline. */
  lemma ParseMethodInverse(name: string)
    ensures ParseMethod(name).Some? <==>
      StartsIgnoreCase(name, "is") && '\n' !in BeforeFinalNewline(name[2..])
    ensures ParseMethod(name).Some? ==>
      var p := ParseMethod(name).value;
      EqualsIgnoreCase(BeforeFinalNewline(name), MethodName(p.negated, p.test))
  {
    if ParseMethod(name).Some? {
      var p := ParseMethod(name).value;
      var body := BeforeFinalNewline(name[2..]);
      var spelled := MethodName(p.negated, p.test);
      assert BeforeFinalNewline(name) == name[..2] + body;
      var tail := if p.negated then body[..3] + p.test else p.test;
      assert body == tail;
      assert LowerAscii("is") == "is" && LowerAscii("Not") == "not" && LowerAscii("not") == "not";
      var lhs := name[..2] + body;
      assert |lhs| == |spelled|;
      forall k | 0 <= k < |lhs|
        ensures LowerChar(lhs[k]) == LowerChar(spelled[k])
      {
        if k < 2 {
          assert LowerAscii(name[..2])[k] == LowerAscii("is")[k];
        } else if p.negated && k < 5 {
          assert lhs[k] == body[..3][k - 2];
          assert LowerAscii(body[..3])[k - 2] == LowerAscii("not")[k - 2];
          assert spelled[k] == "Not"[k - 2];
        } else if p.negated {
          assert lhs[k] == p.test[k - 5] == spelled[k];
        } else {
          assert lhs[k] == p.test[k - 2] == spelled[k];
        }
      }
    }
  }
}
