/**
 * The log of failed assertions: a PHP array from property name to the list
 * of its messages. PHP arrays keep their keys in insertion order, so the log
 * is an ordered list of entries with distinct properties.
 */
module ErrorLog {

  import opened PhpValues

  datatype Entry = Entry(property: string, messages: seq<Value>)

  type Log = seq<Entry>

  /** Every property appears at most once. */
  ghost predicate DistinctProperties(log: Log)
  {
    forall i, j :: 0 <= i < j < |log| ==> log[i].property != log[j].property
  }

  /** Every property appears once and every listed property has a message. */
  ghost predicate WellFormed(log: Log)
  {
    && DistinctProperties(log)
    && (forall k :: 0 <= k < |log| ==> log[k].messages != [])
  }

  /** $log[$p], or no messages when p is not a key. */
  function Messages(log: Log, p: string): seq<Value>
  {
    if log == [] then []
    else if log[0].property == p then log[0].messages
    else Messages(log[1..], p)
  }

  /** $log[$p][] = $m: append m to p's list; a new key goes last. */
  function Record(log: Log, p: string, m: Value): Log
  {
    if log == [] then [Entry(p, [m])]
    else if log[0].property == p then [Entry(p, log[0].messages + [m])] + log[1..]
    else [log[0]] + Record(log[1..], p, m)
  }

  /** Recording appends m to p's messages and leaves every other property's alone. */
  lemma {:induction false} RecordMessages(log: Log, p: string, m: Value, q: string)
    ensures Messages(Record(log, p, m), q) == if q == p then Messages(log, p) + [m] else Messages(log, q)
  {
    if log != [] && log[0].property != p {
      RecordMessages(log[1..], p, m, q);
      assert Record(log, p, m)[1..] == Record(log[1..], p, m);
    }
  }

  lemma LoggedCons(log: Log)
    requires log != []
    ensures Logged(log) == {log[0].property} + Logged(log[1..])
  {
    forall q | q in Logged(log[1..]) ensures q in Logged(log) {
      var k :| 0 <= k < |log[1..]| && log[1..][k].property == q;
      assert log[k + 1].property == q;
    }
  }

  /** Recording keeps every existing key in its place, and a property
      that is not yet a key is added last with the one message. */
  lemma {:induction false} RecordKeyOrder(log: Log, p: string, m: Value)
    ensures |Record(log, p, m)| == if p in Logged(log) then |log| else |log| + 1
    ensures forall k :: 0 <= k < |log| ==> Record(log, p, m)[k].property == log[k].property
    ensures p !in Logged(log) ==> Record(log, p, m)[|log|] == Entry(p, [m])
  {
    if log == [] {
      return;
    }
    var r := Record(log, p, m);
    LoggedCons(log);
    if log[0].property == p {
      assert p in Logged(log);
      forall k | 0 < k < |log| ensures r[k].property == log[k].property {
        assert r[k] == log[1..][k - 1];
      }
    } else {
      var tail := Record(log[1..], p, m);
      RecordKeyOrder(log[1..], p, m);
      assert r == [log[0]] + tail;
      assert (p in Logged(log)) == (p in Logged(log[1..]));
      forall k | 0 < k < |log| ensures r[k].property == log[k].property {
        assert r[k] == tail[k - 1] && log[k] == log[1..][k - 1];
      }
      if p !in Logged(log) {
        assert r[|log|] == tail[|log| - 1];
      }
    }
  }

  /** Recording keeps every property once. */
  lemma RecordKeepsDistinct(log: Log, p: string, m: Value)
    requires DistinctProperties(log)
    ensures DistinctProperties(Record(log, p, m))
  {
    var r := Record(log, p, m);
    RecordKeyOrder(log, p, m);
    forall i, j | 0 <= i < j < |r| ensures r[i].property != r[j].property {
      if j < |log| {
        assert r[i].property == log[i].property && r[j].property == log[j].property;
      } else {
        assert r[i].property == log[i].property && log[i].property in Logged(log);
      }
    }
  }

  /** Recording keeps every property once and every listed property non-empty. */
  lemma RecordKeepsWellFormed(log: Log, p: string, m: Value)
    requires WellFormed(log)
    ensures WellFormed(Record(log, p, m))
  {
    RecordKeepsDistinct(log, p, m);
    RecordKeepsMessages(log, p, m);
  }

  /** Recording never leaves an entry without messages. */
  lemma {:induction false} RecordKeepsMessages(log: Log, p: string, m: Value)
    requires forall k :: 0 <= k < |log| ==> log[k].messages != []
    ensures forall k :: 0 <= k < |Record(log, p, m)| ==> Record(log, p, m)[k].messages != []
  {
    if log != [] && log[0].property != p {
      var r := Record(log, p, m);
      var tail := Record(log[1..], p, m);
      assert r == [log[0]] + tail;
      RecordKeepsMessages(log[1..], p, m);
      forall k | 0 < k < |r| ensures r[k].messages != [] {
        assert r[k] == tail[k - 1];
      }
    }
  }

  /** The properties that have at least one message. */
  function Logged(log: Log): set<string>
  {
    set k | 0 <= k < |log| :: log[k].property
  }

  /** The total number of messages in the log. */
  function TotalMessages(log: Log): nat
  {
    if log == [] then 0 else |log[0].messages| + TotalMessages(log[1..])
  }

  /** count($log) is the number of distinct failed properties. */
  lemma {:induction false} CountIsDistinctProperties(log: Log)
    requires WellFormed(log)
    ensures |log| == |Logged(log)|
  {
    if log != [] {
      CountIsDistinctProperties(log[1..]);
      assert Logged(log) == {log[0].property} + Logged(log[1..]);
      assert log[0].property !in Logged(log[1..]);
    }
  }

  /** A property has messages exactly when it is a key of the log. */
  lemma {:induction false} MessagesIffLogged(log: Log, p: string)
    requires WellFormed(log)
    ensures Messages(log, p) != [] <==> p in Logged(log)
  {
    if log != [] {
      MessagesIffLogged(log[1..], p);
      assert Logged(log) == {log[0].property} + Logged(log[1..]);
    }
  }

  /** Recording a failure adds exactly one message to the log. */
  lemma {:induction false} RecordAddsOneMessage(log: Log, p: string, m: Value)
    ensures TotalMessages(Record(log, p, m)) == TotalMessages(log) + 1
  {
    if log != [] && log[0].property != p {
      RecordAddsOneMessage(log[1..], p, m);
      assert Record(log, p, m)[1..] == Record(log[1..], p, m);
    } else if log != [] {
      assert Record(log, p, m)[1..] == log[1..];
    }
  }
}
