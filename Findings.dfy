/**
 * The records the analyzer reports. Every record carries a `type` tag (the
 * string the rest of the tool filters and groups on) and a message; both
 * are derived here from the kind of record.
 */
module Findings {
  import opened Text

  datatype Finding =
    | UndefinedVariable(variable: string, position: nat)
    | UnreachableCode(code: string, position: nat)
    | InfiniteLoop(position: nat)
    | EventListenerLeak(event: string, handler: string, position: nat)
    | ResourceLeak(resource: string, position: nat)
    | TimerLeak(timer: string, position: nat)
    | MissingErrorHandling
    | ArrayIndexOutOfBounds(arrayName: string, index: string, position: nat)
    | FunctionComplexity(functionName: string, lines: nat, position: nat)
  {
    /** Every record except the missing-error-handling warning points at an offset. */
    predicate HasPosition() {
      !MissingErrorHandling?
    }

    /** The `type` field. */
    function Type(): string {
      match this
      case UndefinedVariable(_, _) => "potential_undefined_variable"
      case UnreachableCode(_, _) => "unreachable_code"
      case InfiniteLoop(_) => "potential_infinite_loop"
      case EventListenerLeak(_, _, _) => "potential_event_listener_leak"
      case ResourceLeak(_, _) => "potential_resource_leak"
      case TimerLeak(_, _) => "potential_timer_leak"
      case MissingErrorHandling => "missing_error_handling"
      case ArrayIndexOutOfBounds(_, _, _) => "potential_array_index_oob"
      case FunctionComplexity(_, _, _) => "function_complexity"
    }

    /** The `message` field. */
    function Message(): string {
      match this
      case UndefinedVariable(v, _) => "Variable '" + v + "' might be undefined"
      case UnreachableCode(_, _) => "Unreachable code detected"
      case InfiniteLoop(_) => "Potentially infinite loop detected"
      case EventListenerLeak(e, _, _) => "Event listener '" + e + "' may cause memory leaks if not properly removed"
      case ResourceLeak(_, _) => "XMLHttpRequest may cause resource leaks if not properly handled"
      case TimerLeak(t, _) => t + " may cause resource leaks if not properly cleared"
      case MissingErrorHandling => "Asynchronous code detected without error handling"
      case ArrayIndexOutOfBounds(a, i, _) => "Potential array index out of bounds for " + a + "[" + i + "]"
      case FunctionComplexity(n, l, _) => "Function " + n + " is overly complex with " + NatToString(l) + " lines"
    }
  }

  /** Every record points at an offset, and the offsets strictly increase along the sequence. */
  predicate AscendingPositions(fs: seq<Finding>) {
    forall i, j :: 0 <= i < j < |fs| ==> fs[i].HasPosition() && fs[j].HasPosition() && fs[i].position < fs[j].position
  }

  /** `findings.filter(f => f.type === t)`. */
  function OfType(fs: seq<Finding>, t: string): (r: seq<Finding>)
    ensures |r| <= |fs|
    ensures forall f :: f in r <==> f in fs && f.Type() == t
  {
    if |fs| == 0 then []
    else (if fs[0].Type() == t then [fs[0]] else []) + OfType(fs[1..], t)
  }

  /** Filtering distributes over concatenation. */
  lemma {:induction false} OfTypeAppend(a: seq<Finding>, b: seq<Finding>, t: string)
    ensures OfType(a + b, t) == OfType(a, t) + OfType(b, t)
    decreases |a|
  {
    if |a| > 0 {
      assert (a + b)[1..] == a[1..] + b;
      OfTypeAppend(a[1..], b, t);
    } else {
      assert a + b == b;
    }
  }

  /** Filtering keeps everything when every record has the type. */
  lemma {:induction false} OfTypeAll(fs: seq<Finding>, t: string)
    requires forall f :: f in fs ==> f.Type() == t
    ensures OfType(fs, t) == fs
    decreases |fs|
  {
    if |fs| > 0 {
      OfTypeAll(fs[1..], t);
      assert fs == [fs[0]] + fs[1..];
    }
  }

  /** Filtering keeps nothing when no record has the type. */
  lemma OfTypeNone(fs: seq<Finding>, t: string)
    requires forall f :: f in fs ==> f.Type() != t
    ensures OfType(fs, t) == []
  {
    if OfType(fs, t) != [] {
      assert OfType(fs, t)[0] in OfType(fs, t);
    }
  }

  /** Appending to a record list one piece at a time builds the concatenation of the pieces. */
  lemma AppendAssoc(o: seq<Finding>, a: seq<Finding>, b: seq<Finding>)
    ensures (o + a) + b == o + (a + b)
  {
  }

  lemma AppendEmpty(a: seq<Finding>)
    ensures [] + a == a
  {
  }
}
