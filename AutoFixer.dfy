/**
 * The auto-fixer: five passes over the text, each taking the previous
 * pass's output (unreachable-code comments, the try/catch wrapper, the leak
 * blocks, the array-bounds block, the accumulator rewrite), a record of
 * every fix applied, and suggestions derived from the findings alone.
 */
module AutoFixer {
  import opened Wrappers
  import opened Text
  import opened Patterns
  import opened Findings
  import opened FixerText
  import opened FixerProperties

  /** One entry of `fixesApplied`. */
  datatype FixRecord =
    | UnreachableCodeRemoved(position: nat)
    | ErrorHandlingAdded
    | EventListenerLeakWarning(count: nat)
    | ResourceLeakWarning(count: nat)
    | TimerLeakWarning(count: nat)
    | ArrayBoundsWarning(count: nat)
    | VariableInitializationFixed(variable: string)
  {
    /** The `type` field. */
    function Type(): string {
      match this
      case UnreachableCodeRemoved(_) => "unreachable_code_removed"
      case ErrorHandlingAdded => "error_handling_added"
      case EventListenerLeakWarning(_) => "event_listener_leak_warning"
      case ResourceLeakWarning(_) => "resource_leak_warning"
      case TimerLeakWarning(_) => "timer_leak_warning"
      case ArrayBoundsWarning(_) => "array_bounds_warning"
      case VariableInitializationFixed(_) => "variable_initialization_fixed"
    }

    /** The `message` field. */
    function Message(): string {
      match this
      case UnreachableCodeRemoved(p) => "Removed unreachable code at position " + NatToString(p)
      case ErrorHandlingAdded => "Added try-catch wrapper for error handling"
      case EventListenerLeakWarning(n) =>
        "Added warning comment for " + NatToString(n) + " potential event listener leaks"
      case ResourceLeakWarning(n) => "Added warning comment for " + NatToString(n) + " potential resource leaks"
      case TimerLeakWarning(n) => "Added warning comment for " + NatToString(n) + " potential timer leaks"
      case ArrayBoundsWarning(n) => "Added warning comment for " + NatToString(n) + " potential array index issues"
      case VariableInitializationFixed(v) => "Initialized variable '" + v + "' to 0 before use with += operator"
    }
  }

  /** `{name, lines}` of an overly long function. */
  datatype ComplexFunction = ComplexFunction(name: string, lines: nat)

  /** One entry of `suggestions`. */
  datatype Suggestion =
    | UndefinedVariables(variables: seq<string>)
    | InfiniteLoops(count: nat)
    | ComplexFunctions(functions: seq<ComplexFunction>)
    | ManualReview(issues: nat)
  {
    /** The `type` field. */
    function Type(): string {
      match this
      case UndefinedVariables(_) => "undefined_variables"
      case InfiniteLoops(_) => "infinite_loops"
      case ComplexFunctions(_) => "function_complexity"
      case ManualReview(_) => "manual_review"
    }

    /** The `message` field. */
    function Message(): string {
      match this
      case UndefinedVariables(_) => "Consider declaring these variables or checking if they exist before use"
      case InfiniteLoops(_) => "Add proper exit conditions to prevent infinite loops"
      case ComplexFunctions(_) => "Consider refactoring these complex functions into smaller, more manageable pieces"
      case ManualReview(_) => "Manual code review recommended for the identified critical issues"
    }

    /** The place of the kind in the order the generator produces them. */
    function Rank(): nat {
      match this
      case UndefinedVariables(_) => 0
      case InfiniteLoops(_) => 1
      case ComplexFunctions(_) => 2
      case ManualReview(_) => 3
    }
  }

  /** What `fix` returns; the timestamp is not part of this model. */
  datatype FixResult = FixResult(fixedCode: string, fixesApplied: seq<FixRecord>, suggestions: seq<Suggestion>)

  // ---------------------------------------------------------------------
  // Finding counts and payloads

  /** `findings.filter(f => f.type === t).length`. */
  function CountOf(fs: seq<Finding>, t: string): nat {
    |OfType(fs, t)|
  }

  /** `findings.some(f => f.type === t)`. */
  predicate AnyOfType(fs: seq<Finding>, t: string) {
    exists k :: 0 <= k < |fs| && fs[k].Type() == t
  }

  /** The offset of a record; only the missing-error-handling warning has none. */
  function PositionOf(f: Finding): nat {
    if f.HasPosition() then f.position else 0
  }

  /** The offsets of the records, in order. */
  function Positions(fs: seq<Finding>): (ps: seq<nat>)
    ensures |ps| == |fs|
  {
    seq(|fs|, k requires 0 <= k < |fs| => PositionOf(fs[k]))
  }

  /** Only unreachable-code records carry the `unreachable_code` type. */
  lemma UnreachableTyped(f: Finding)
    requires f.Type() == "unreachable_code"
    ensures f.UnreachableCode? && f.Message() == "Unreachable code detected"
  {
  }

  /** The offsets of the unreachable-code issues, in the order they are listed. */
  function UnreachablePositions(issues: seq<Finding>): seq<nat> {
    Positions(OfType(issues, "unreachable_code"))
  }

  /**
   * Unreachable-code issues at strictly ascending offsets within a text of
   * length `n` hand the pass offsets in order and within the text.
   */
  lemma UnreachableInOrder(issues: seq<Finding>, n: nat)
    requires AscendingPositions(issues)
    requires forall f :: f in issues ==> f.UnreachableCode? && f.position <= n
    ensures Ascending(UnreachablePositions(issues)) && Bounded(UnreachablePositions(issues), n)
  {
    OfTypeAll(issues, "unreachable_code");
    var ps := UnreachablePositions(issues);
    forall i, j | 0 <= i <= j < |ps|
      ensures ps[i] <= ps[j]
    {
      if i < j {
        assert ps[i] == issues[i].position && ps[j] == issues[j].position;
      }
    }
    forall i | 0 <= i < |ps|
      ensures ps[i] <= n
    {
      assert issues[i] in issues;
    }
  }

  /**
   * The issues' offsets are in order and within the code, the pass's output
   * is the pieces of the code between the offsets with a comment between
   * each two, and the pieces make up the code.
   */
  predicate CommentsBetween(code: string, issues: seq<Finding>) {
    var ps := UnreachablePositions(issues);
    && Ascending(ps) && Bounded(ps, |code|)
    && AfterUnreachable(code, issues) == Interleave(Cut(code, ps), UnreachableComment)
    && Concat(Cut(code, ps)) == code
  }

  /** Unreachable-code issues at strictly ascending offsets within the code get their comments in place. */
  lemma CommentsBetweenPieces(code: string, issues: seq<Finding>)
    requires AscendingPositions(issues)
    requires forall f :: f in issues ==> f.UnreachableCode? && f.position <= |code|
    ensures CommentsBetween(code, issues)
  {
    UnreachableInOrder(issues, |code|);
    InsertedRoundTrip(code, UnreachablePositions(issues), UnreachableComment);
  }

  // ---------------------------------------------------------------------
  // The texts and records of the passes

  /** The comment put in front of unreachable code, given the issue's message. */
  function RemovedComment(message: string): string {
    CommentBreak + "// ULTRA-DEBUGGER: Removed unreachable code - " + message + CommentBreak
  }

  /** The line break and indentation on each side of the comment. */
  const CommentBreak := "\n    "

  /** Every unreachable-code issue carries the same message, so every comment is this one. */
  const UnreachableComment := RemovedComment("Unreachable code detected")

  function RemovedRecords(ps: seq<nat>): (r: seq<FixRecord>)
    ensures |r| == |ps|
  {
    seq(|ps|, k requires 0 <= k < |ps| => UnreachableCodeRemoved(ps[k]))
  }

  lemma RemovedRecordsStep(ps: seq<nat>, k: nat)
    requires k < |ps|
    ensures RemovedRecords(ps[..k + 1]) == RemovedRecords(ps[..k]) + [UnreachableCodeRemoved(ps[k])]
  {
    var a, b := RemovedRecords(ps[..k + 1]), RemovedRecords(ps[..k]) + [UnreachableCodeRemoved(ps[k])];
    assert forall i :: 0 <= i < |a| ==> a[i] == b[i];
  }

  /** The wrapper goes on when some warning reports missing error handling and the text has no try/catch. */
  predicate NeedsWrapper(code: string, warnings: seq<Finding>) {
    AnyOfType(warnings, "missing_error_handling") && !Occurs(TryCatch, code)
  }

  function WrapperText(code: string, warnings: seq<Finding>): string {
    if NeedsWrapper(code, warnings) then Wrapped(code) else code
  }

  function WrapperRecords(code: string, warnings: seq<Finding>): seq<FixRecord> {
    if NeedsWrapper(code, warnings) then [ErrorHandlingAdded] else []
  }

  /**
   * One record per leak category that has warnings, in the order event
   * listeners, resources, timers, each carrying its category's count.
   */
  function LeakRecords(events: nat, resources: nat, timers: nat): seq<FixRecord> {
    EventRecords(events) + ResourceRecords(resources) + TimerRecords(timers)
  }

  function EventRecords(events: nat): seq<FixRecord> {
    if events > 0 then [EventListenerLeakWarning(events)] else []
  }

  function ResourceRecords(resources: nat): seq<FixRecord> {
    if resources > 0 then [ResourceLeakWarning(resources)] else []
  }

  function TimerRecords(timers: nat): seq<FixRecord> {
    if timers > 0 then [TimerLeakWarning(timers)] else []
  }

  /**
   * At most three leak records: one for a category exactly when it has
   * warnings, each carrying its category's count, and nothing else.
   */
  lemma LeakRecordsShape(events: nat, resources: nat, timers: nat)
    ensures var r := LeakRecords(events, resources, timers);
      && |r| <= 3
      && (EventListenerLeakWarning(events) in r <==> events > 0)
      && (ResourceLeakWarning(resources) in r <==> resources > 0)
      && (TimerLeakWarning(timers) in r <==> timers > 0)
      && (forall k :: 0 <= k < |r| ==>
           r[k] == EventListenerLeakWarning(events) || r[k] == ResourceLeakWarning(resources)
           || r[k] == TimerLeakWarning(timers))
  {
  }

  /** Appending the three category records one after the other appends the leak records. */
  lemma LeakRecordsParts(s: seq<FixRecord>, events: nat, resources: nat, timers: nat)
    ensures s + EventRecords(events) + ResourceRecords(resources) + TimerRecords(timers)
      == s + LeakRecords(events, resources, timers)
  {
    var e, r, t := EventRecords(events), ResourceRecords(resources), TimerRecords(timers);
    assert s + e + r + t == s + (e + r + t);
  }

  function ArrayRecords(count: nat): seq<FixRecord> {
    if count > 0 then [ArrayBoundsWarning(count)] else []
  }

  /** One record per rewritten declaration, naming its variable. */
  function InitRecords(ms: seq<Match>): (r: seq<FixRecord>)
    ensures |r| == |ms|
  {
    seq(|ms|, k requires 0 <= k < |ms| => VariableInitializationFixed(ms[k].g2))
  }

  const EventLeakType := "potential_event_listener_leak"
  const ResourceLeakType := "potential_resource_leak"
  const TimerLeakType := "potential_timer_leak"
  const ArrayType := "potential_array_index_oob"

  /** The text after the unreachable-code pass. */
  function AfterUnreachable(code: string, issues: seq<Finding>): string {
    Inserted(code, UnreachablePositions(issues), UnreachableComment)
  }

  /** The text after the first four passes, which the accumulator pass rewrites. */
  function Prepared(code: string, issues: seq<Finding>, warnings: seq<Finding>): string {
    var wrapped := WrapperText(AfterUnreachable(code, issues), warnings);
    var leaks := LeakText(wrapped, CountOf(warnings, EventLeakType), CountOf(warnings, ResourceLeakType),
      CountOf(warnings, TimerLeakType));
    ArrayText(leaks, CountOf(warnings, ArrayType))
  }

  /** The fixed text. */
  function FixedCode(code: string, issues: seq<Finding>, warnings: seq<Finding>): string {
    Rewritten(Prepared(code, issues, warnings))
  }

  /**
   * The drift assumes the offsets come in order. Issues listed out of order,
   * as a `throw` at `t` listed after a `return` at a later `r`, put the
   * second comment one comment length past `t` instead of at `t`, where the
   * same issues listed in order put it.
   */
  lemma OutOfOrderDrifts(code: string, a: string, b: string, r: nat, t: nat)
    requires t < r <= |code| && At(code, t, "throw")
    ensures var out := AfterUnreachable(code, [UnreachableCode(a, r), UnreachableCode(b, t)]);
      !At(out, t, UnreachableComment) && At(out, t + |UnreachableComment|, UnreachableComment)
    ensures At(AfterUnreachable(code, [UnreachableCode(b, t), UnreachableCode(a, r)]), t, UnreachableComment)
  {
    assert code[t..t + 5] == "throw" && code[t] == code[t..t + 5][0];
    CommentStartsWithBreak();
    TwoPositions(a, b, r, t);
    InsertedOutOfOrder(code, r, t, UnreachableComment);
    InOrderInPlace(code, a, b, r, t);
  }

  lemma InOrderInPlace(code: string, a: string, b: string, r: nat, t: nat)
    requires t < r <= |code|
    ensures At(AfterUnreachable(code, [UnreachableCode(b, t), UnreachableCode(a, r)]), t, UnreachableComment)
  {
    TwoPositions(b, a, t, r);
    InsertedRoundTrip(code, [t, r], UnreachableComment);
    assert Slot([t, r], 0, UnreachableComment) == t;
  }

  lemma CommentStartsWithBreak()
    ensures |UnreachableComment| > 0 && UnreachableComment[0] == '\n'
  {
    var text := "// ULTRA-DEBUGGER: Removed unreachable code - " + "Unreachable code detected" + CommentBreak;
    assert UnreachableComment == CommentBreak + text;
    assert CommentBreak[0] == '\n';
  }

  lemma TwoPositions(a: string, b: string, p: nat, q: nat)
    ensures UnreachablePositions([UnreachableCode(a, p), UnreachableCode(b, q)]) == [p, q]
  {
    OfTypeAll([UnreachableCode(a, p), UnreachableCode(b, q)], "unreachable_code");
  }

  /** The records of the five passes, in the order the passes run. */
  function FixRecords(code: string, issues: seq<Finding>, warnings: seq<Finding>): seq<FixRecord> {
    RemovedRecords(UnreachablePositions(issues))
    + WrapperRecords(AfterUnreachable(code, issues), warnings)
    + LeakRecords(CountOf(warnings, EventLeakType), CountOf(warnings, ResourceLeakType), CountOf(warnings, TimerLeakType))
    + ArrayRecords(CountOf(warnings, ArrayType))
    + InitRecords(AllMatches(Accumulator, Prepared(code, issues, warnings), 0))
  }

  /** The texts and records the passes hand on to each other compose to the fixer's result. */
  lemma PassesCompose(code: string, issues: seq<Finding>, warnings: seq<Finding>,
                      afterUnreachable: string, wrapped: string, leaks: string, prepared: string,
                      r0: seq<FixRecord>, r1: seq<FixRecord>, r2: seq<FixRecord>, r3: seq<FixRecord>, r4: seq<FixRecord>)
    requires afterUnreachable == AfterUnreachable(code, issues)
    requires wrapped == WrapperText(afterUnreachable, warnings)
    requires leaks == LeakText(wrapped, CountOf(warnings, EventLeakType), CountOf(warnings, ResourceLeakType),
      CountOf(warnings, TimerLeakType))
    requires prepared == ArrayText(leaks, CountOf(warnings, ArrayType))
    requires r0 == [] + RemovedRecords(UnreachablePositions(issues))
    requires r1 == r0 + WrapperRecords(afterUnreachable, warnings)
    requires r2 == r1 + LeakRecords(CountOf(warnings, EventLeakType), CountOf(warnings, ResourceLeakType),
      CountOf(warnings, TimerLeakType))
    requires r3 == r2 + ArrayRecords(CountOf(warnings, ArrayType))
    requires r4 == r3 + InitRecords(AllMatches(Accumulator, prepared, 0))
    ensures prepared == Prepared(code, issues, warnings)
    ensures r4 == FixRecords(code, issues, warnings)
  {
    assert [] + RemovedRecords(UnreachablePositions(issues)) == RemovedRecords(UnreachablePositions(issues));
  }

  /**
   * What the accumulator loop keeps: the next match from `lastIndex`, the
   * text built so far followed by the rest of the input, the drift between
   * the two, the rewrite still to come and the matches reported.
   */
  ghost predicate Rewriting(code: string, lastIndex: nat, found: Option<Match>, fixedCode: string, offset: int,
                            out: string, done: seq<Match>)
  {
    && lastIndex <= |code| && found == Exec(Accumulator, code, lastIndex)
    && fixedCode == out + code[lastIndex..] && offset == |out| - lastIndex
    && out + RewriteFrom(code, lastIndex) == Rewritten(code)
    && done + AllMatches(Accumulator, code, lastIndex) == AllMatches(Accumulator, code, 0)
  }

  /** The loop starts in its invariant and ends with the rewrite and all matches. */
  lemma RewritingEnds(code: string, lastIndex: nat, found: Option<Match>, fixedCode: string, offset: int,
                      out: string, done: seq<Match>)
    ensures Rewriting(code, 0, Exec(Accumulator, code, 0), code, 0, "", [])
    ensures Rewriting(code, lastIndex, found, fixedCode, offset, out, done) && found.None? ==>
      fixedCode == Rewritten(code) && done == AllMatches(Accumulator, code, 0)
  {
    assert "" + RewriteFrom(code, 0) == Rewritten(code);
    assert [] + AllMatches(Accumulator, code, 0) == AllMatches(Accumulator, code, 0);
    if Rewriting(code, lastIndex, found, fixedCode, offset, out, done) && found.None? {
      ScanStep(Accumulator, code, done, lastIndex);
    }
  }

  /** One turn of the accumulator loop moves on past the match it found. */
  lemma StepBounds(code: string, lastIndex: nat, m: Match, fixedCode: string, offset: int,
                   out: string, done: seq<Match>)
    requires Rewriting(code, lastIndex, Some(m), fixedCode, offset, out, done)
    ensures lastIndex <= m.start < m.end <= |code|
    ensures offset + |Replacement(m)| - (m.end - m.start) == |out + code[lastIndex..m.start] + Replacement(m)| - m.end
  {
  }

  /** One turn of the accumulator loop splices the replacement in at the drifted offset. */
  lemma StepSplice(code: string, lastIndex: nat, m: Match, fixedCode: string, offset: int,
                   out: string, done: seq<Match>)
    requires Rewriting(code, lastIndex, Some(m), fixedCode, offset, out, done)
    ensures ReplaceSpan(fixedCode, m.start + offset, m.end - m.start, Replacement(m))
      == (out + code[lastIndex..m.start] + Replacement(m)) + code[m.end..]
  {
    SpliceShifted(fixedCode, m.start + offset, code, out, lastIndex, m.start, m.end, Replacement(m));
  }

  /** One turn of the accumulator loop leaves the rest of the rewrite still to come. */
  lemma StepRewrite(code: string, lastIndex: nat, m: Match, fixedCode: string, offset: int,
                    out: string, done: seq<Match>)
    requires Rewriting(code, lastIndex, Some(m), fixedCode, offset, out, done)
    ensures (out + code[lastIndex..m.start] + Replacement(m)) + RewriteFrom(code, m.end) == Rewritten(code)
  {
    RewriteStep(code, out, lastIndex, m);
  }

  /** One turn of the accumulator loop reports one more match. */
  lemma StepMatches(code: string, lastIndex: nat, m: Match, fixedCode: string, offset: int,
                    out: string, done: seq<Match>)
    requires Rewriting(code, lastIndex, Some(m), fixedCode, offset, out, done)
    ensures (done + [m]) + AllMatches(Accumulator, code, m.end) == AllMatches(Accumulator, code, 0)
  {
    MatchesStep(code, lastIndex, m, done);
  }

  /** The invariant of the accumulator loop, put together from its parts. */
  lemma RewritingFold(code: string, lastIndex: nat, found: Option<Match>, fixedCode: string, offset: int,
                      out: string, done: seq<Match>)
    requires lastIndex <= |code| && found == Exec(Accumulator, code, lastIndex)
    requires fixedCode == out + code[lastIndex..] && offset == |out| - lastIndex
    requires out + RewriteFrom(code, lastIndex) == Rewritten(code)
    requires done + AllMatches(Accumulator, code, lastIndex) == AllMatches(Accumulator, code, 0)
    ensures Rewriting(code, lastIndex, found, fixedCode, offset, out, done)
  {
  }

  /** The matches reported so far grow by the one just found. */
  lemma MatchesStep(code: string, lastIndex: nat, m: Match, done: seq<Match>)
    requires lastIndex <= |code| && Exec(Accumulator, code, lastIndex) == Some(m)
    requires done + AllMatches(Accumulator, code, lastIndex) == AllMatches(Accumulator, code, 0)
    ensures (done + [m]) + AllMatches(Accumulator, code, m.end) == AllMatches(Accumulator, code, 0)
  {
    ScanStep(Accumulator, code, done, lastIndex);
  }

  /** One more match, one more record. */
  lemma InitRecordsStep(done: seq<Match>, m: Match)
    ensures InitRecords(done + [m]) == InitRecords(done) + [VariableInitializationFixed(m.g2)]
  {
    assert InitRecords(done + [m]) == InitRecords(done) + [VariableInitializationFixed(m.g2)];
  }

  // ---------------------------------------------------------------------
  // Suggestions

  /** No value occurs twice. */
  predicate Distinct(xs: seq<string>) {
    forall i, j :: 0 <= i < j < |xs| ==> xs[i] != xs[j]
  }

  /** `[...new Set(xs)]`: each value once, where it first occurs. */
  function Dedup(xs: seq<string>): (r: seq<string>)
    ensures |r| <= |xs|
    ensures Distinct(r)
    ensures forall x :: x in r <==> x in xs
  {
    if |xs| == 0 then []
    else
      var d := Dedup(xs[..|xs| - 1]);
      var x := xs[|xs| - 1];
      assert forall y :: y in xs <==> y in xs[..|xs| - 1] || y == x by {
        assert xs == xs[..|xs| - 1] + [x];
      }
      if x in d then d else d + [x]
  }

  /** The index where `x` first occurs. */
  function FirstIndex(xs: seq<string>, x: string): (i: nat)
    requires x in xs
    ensures i < |xs| && xs[i] == x && x !in xs[..i]
  {
    if xs[0] == x then 0
    else
      var i := FirstIndex(xs[1..], x);
      assert xs[..i + 1] == [xs[0]] + xs[1..][..i];
      i + 1
  }

  /** A value already in a prefix first occurs where it first occurs in that prefix. */
  lemma FirstIndexPrefix(xs: seq<string>, n: nat, x: string)
    requires n <= |xs| && x in xs[..n]
    ensures FirstIndex(xs, x) == FirstIndex(xs[..n], x)
  {
    var k := FirstIndex(xs[..n], x);
    assert xs[..n][..k] == xs[..k];
  }

  /** Every value of `r` occurs in `xs`, and `r` lists them in the order they first occur there. */
  predicate InFirstOccurrenceOrder(r: seq<string>, xs: seq<string>) {
    forall i, j :: 0 <= i < j < |r| ==> r[i] in xs && r[j] in xs && FirstIndex(xs, r[i]) < FirstIndex(xs, r[j])
  }

  /**
   * `[...new Set(xs)]` keeps the values in the order of their first
   * occurrences: of two values in the result, the one listed first occurs
   * first in `xs`.
   */
  lemma {:induction false} DedupFirstOccurrence(xs: seq<string>)
    ensures InFirstOccurrenceOrder(Dedup(xs), xs)
    decreases |xs|
  {
    if |xs| > 0 {
      var n := |xs| - 1;
      var init, x := xs[..n], xs[n];
      var d := Dedup(init);
      DedupFirstOccurrence(init);
      var r := Dedup(xs);
      forall y | y in d
        ensures y in init && FirstIndex(xs, y) < n
        ensures FirstIndex(xs, y) == FirstIndex(init, y)
      {
        assert y in init;
        FirstIndexPrefix(xs, n, y);
      }
      forall i, j | 0 <= i < j < |r|
        ensures r[i] in xs && r[j] in xs && FirstIndex(xs, r[i]) < FirstIndex(xs, r[j])
      {
        assert r[i] == d[i];
        if j < |d| {
          assert r[j] == d[j];
          assert FirstIndex(init, d[i]) < FirstIndex(init, d[j]);
        } else {
          assert x !in init && r[j] == x;
          assert FirstIndex(xs, x) == n;
        }
      }
      assert InFirstOccurrenceOrder(r, xs);
    }
  }

  /** The variable of an undefined-variable warning. */
  function VariableOf(f: Finding): string {
    if f.UndefinedVariable? then f.variable else ""
  }

  /** `warnings.filter(w => w.type === 'potential_undefined_variable').map(v => v.variable)`. */
  function UndefinedNames(warnings: seq<Finding>): seq<string> {
    var fs := OfType(warnings, "potential_undefined_variable");
    seq(|fs|, k requires 0 <= k < |fs| => VariableOf(fs[k]))
  }

  function ComplexOf(f: Finding): ComplexFunction {
    if f.FunctionComplexity? then ComplexFunction(f.functionName, f.lines) else ComplexFunction("", 0)
  }

  /** `{name, lines}` of each complexity warning, in order. */
  function ComplexList(warnings: seq<Finding>): seq<ComplexFunction> {
    var fs := OfType(warnings, "function_complexity");
    seq(|fs|, k requires 0 <= k < |fs| => ComplexOf(fs[k]))
  }

  /** The suggestions for a set of findings, in the order the generator produces them. */
  function Suggestions(issues: seq<Finding>, warnings: seq<Finding>): seq<Suggestion> {
    UndefinedSuggestion(warnings) + LoopSuggestion(warnings) + ComplexSuggestion(warnings) + ReviewSuggestion(issues)
  }

  /**
   * At most one suggestion of each kind, in the order undefined variables,
   * infinite loops, complex functions, manual review, and none at all
   * exactly when there are no issues and no warnings of the three kinds.
   */
  lemma SuggestionsShape(issues: seq<Finding>, warnings: seq<Finding>)
    ensures var r := Suggestions(issues, warnings);
      && |r| <= 4
      && (forall i, j :: 0 <= i < j < |r| ==> r[i].Rank() < r[j].Rank())
      && (r == [] <==>
           |issues| == 0 && CountOf(warnings, "potential_undefined_variable") == 0
           && CountOf(warnings, "potential_infinite_loop") == 0 && CountOf(warnings, "function_complexity") == 0)
  {
    var u, l, c, v := UndefinedSuggestion(warnings), LoopSuggestion(warnings), ComplexSuggestion(warnings),
      ReviewSuggestion(issues);
    RankedAfter([], u, 0);
    RankedAfter(u, l, 1);
    RankedAfter(u + l, c, 2);
    RankedAfter(u + l + c, v, 3);
    assert Suggestions(issues, warnings) == u + l + c + v;
  }

  /** Suggestions of strictly increasing kind. */
  predicate Ranked(r: seq<Suggestion>) {
    forall i, j :: 0 <= i < j < |r| ==> r[i].Rank() < r[j].Rank()
  }

  /** At most one suggestion of kind `k` after suggestions of lower kinds keeps them ranked. */
  lemma RankedAfter(a: seq<Suggestion>, b: seq<Suggestion>, k: nat)
    requires Ranked(a) && (forall s :: s in a ==> s.Rank() < k)
    requires |b| <= 1 && forall s :: s in b ==> s.Rank() == k
    ensures Ranked(a + b) && forall s :: s in a + b ==> s.Rank() <= k
  {
    var r := a + b;
    forall i, j | 0 <= i < j < |r|
      ensures r[i].Rank() < r[j].Rank()
    {
      if j < |a| {
        assert r[i] == a[i] && r[j] == a[j];
      } else {
        assert r[i] == a[i] && r[j] == b[0];
      }
    }
  }

  /** Appending the four parts one after the other appends the suggestions. */
  lemma SuggestionsParts(s: seq<Suggestion>, issues: seq<Finding>, warnings: seq<Finding>)
    ensures s + UndefinedSuggestion(warnings) + LoopSuggestion(warnings) + ComplexSuggestion(warnings)
      + ReviewSuggestion(issues) == s + Suggestions(issues, warnings)
  {
    var u, l, c, r := UndefinedSuggestion(warnings), LoopSuggestion(warnings), ComplexSuggestion(warnings),
      ReviewSuggestion(issues);
    assert s + u + l + c + r == s + (u + l + c + r);
  }

  /**
   * With no issues and no warnings the first four passes leave the text
   * alone and record nothing, so only the accumulator rewrite can change it,
   * with one record per rewritten declaration, and there are no
   * suggestions; code without an accumulator pattern comes back unchanged
   * with no records at all.
   */
  lemma NothingFound(code: string)
    ensures FixedCode(code, [], []) == Rewritten(code)
    ensures FixRecords(code, [], []) == InitRecords(AllMatches(Accumulator, code, 0))
    ensures Suggestions([], []) == []
    ensures !Occurs(Accumulator, code) ==> FixedCode(code, [], []) == code && FixRecords(code, [], []) == []
  {
    assert UnreachablePositions([]) == [];
    assert AfterUnreachable(code, []) == code;
    assert !NeedsWrapper(code, []);
    LeakNone(code);
    assert Prepared(code, [], []) == code;
    SuggestionsShape([], []);
    if !Occurs(Accumulator, code) {
      RewriteNothing(code);
    }
  }

  function UndefinedSuggestion(warnings: seq<Finding>): seq<Suggestion> {
    var names := UndefinedNames(warnings);
    if |names| > 0 then [UndefinedVariables(Dedup(names))] else []
  }

  function LoopSuggestion(warnings: seq<Finding>): seq<Suggestion> {
    var loops := CountOf(warnings, "potential_infinite_loop");
    if loops > 0 then [InfiniteLoops(loops)] else []
  }

  function ComplexSuggestion(warnings: seq<Finding>): seq<Suggestion> {
    var complex := ComplexList(warnings);
    if |complex| > 0 then [ComplexFunctions(complex)] else []
  }

  function ReviewSuggestion(issues: seq<Finding>): seq<Suggestion> {
    if |issues| > 0 then [ManualReview(|issues|)] else []
  }

  // ---------------------------------------------------------------------
  // The fixer

  class AutoFixer {
    var fixesApplied: seq<FixRecord>
    var suggestions: seq<Suggestion>

    constructor ()
      ensures fixesApplied == [] && suggestions == []
    {
      fixesApplied := [];
      suggestions := [];
    }

    /**
     * Runs the five passes in order on fresh record lists, then derives the
     * suggestions from the findings.
     */
    method Fix(sourceCode: string, issues: seq<Finding>, warnings: seq<Finding>) returns (result: FixResult)
      modifies this
      ensures fixesApplied == FixRecords(sourceCode, issues, warnings)
      ensures suggestions == Suggestions(issues, warnings)
      ensures result == FixResult(FixedCode(sourceCode, issues, warnings), fixesApplied, suggestions)
    {
      fixesApplied := [];
      suggestions := [];
      var fixedCode := sourceCode;
      fixedCode := FixUnreachableCode(fixedCode, issues);
      ghost var afterUnreachable, r0 := fixedCode, fixesApplied;
      fixedCode := FixErrorHandling(fixedCode, warnings);
      ghost var wrapped, r1 := fixedCode, fixesApplied;
      fixedCode := FixResourceLeaks(fixedCode, warnings);
      ghost var leaks, r2 := fixedCode, fixesApplied;
      fixedCode := FixArrayIndexAccess(fixedCode, warnings);
      ghost var prepared, r3 := fixedCode, fixesApplied;
      fixedCode := FixVariableInitialization(fixedCode, warnings);
      PassesCompose(sourceCode, issues, warnings, afterUnreachable, wrapped, leaks, prepared, r0, r1, r2, r3,
        fixesApplied);
      GenerateSuggestions(issues, warnings);
      result := FixResult(fixedCode, fixesApplied, suggestions);
    }

    /**
     * Puts a comment in front of each unreachable-code issue's offset, each
     * offset moved on by the comments already put in, and records each.
     */
    method FixUnreachableCode(code: string, issues: seq<Finding>) returns (fixedCode: string)
      modifies this
      ensures fixedCode == AfterUnreachable(code, issues)
      ensures fixesApplied == old(fixesApplied) + RemovedRecords(UnreachablePositions(issues))
      ensures suggestions == old(suggestions)
    {
      fixedCode := code;
      var offset: nat := 0;
      var unreachableIssues := OfType(issues, "unreachable_code");
      ghost var ps := Positions(unreachableIssues);
      for k := 0 to |unreachableIssues|
        invariant offset == k * |UnreachableComment|
        invariant fixedCode == Inserted(code, ps[..k], UnreachableComment)
        invariant fixesApplied == old(fixesApplied) + RemovedRecords(ps[..k])
        invariant suggestions == old(suggestions)
      {
        var issue := unreachableIssues[k];
        assert issue in unreachableIssues;
        UnreachableTyped(issue);
        var position := PositionOf(issue) + offset;
        var comment := RemovedComment(issue.Message());
        assert comment == UnreachableComment;
        InsertedStep(code, ps, k, comment);
        fixedCode := InsertAt(fixedCode, position, comment);
        assert (k + 1) * |comment| == k * |comment| + |comment|;
        offset := offset + |comment|;
        fixesApplied := fixesApplied + [UnreachableCodeRemoved(PositionOf(issue))];
        RemovedRecordsStep(ps, k);
      }
      assert ps[..|unreachableIssues|] == ps;
    }

    /**
     * Wraps the whole text in `try { … } catch` when some warning reports
     * missing error handling and the text has no try/catch yet.
     */
    method FixErrorHandling(code: string, warnings: seq<Finding>) returns (fixedCode: string)
      modifies this
      ensures fixedCode == WrapperText(code, warnings)
      ensures fixesApplied == old(fixesApplied) + WrapperRecords(code, warnings)
      ensures suggestions == old(suggestions)
    {
      fixedCode := code;
      var missingErrorHandling := AnyOfType(warnings, "missing_error_handling");
      if missingErrorHandling {
        if !Occurs(TryCatch, code) {
          fixedCode := Wrapped(code);
          fixesApplied := fixesApplied + [ErrorHandlingAdded];
        }
      }
    }

    /**
     * Puts a comment block at the top for each leak category that has
     * warnings; the resource block goes below the event-listener block and
     * the timer block below the first block already there.
     */
    method FixResourceLeaks(code: string, warnings: seq<Finding>) returns (fixedCode: string)
      modifies this
      ensures var events := CountOf(warnings, EventLeakType);
        var resources := CountOf(warnings, ResourceLeakType);
        var timers := CountOf(warnings, TimerLeakType);
        && fixedCode == LeakText(code, events, resources, timers)
        && fixesApplied == old(fixesApplied) + LeakRecords(events, resources, timers)
      ensures suggestions == old(suggestions)
    {
      fixedCode := code;
      var hasLeaks := false;
      var eventListenerLeaks := OfType(warnings, EventLeakType);
      if |eventListenerLeaks| > 0 {
        hasLeaks := true;
        fixedCode := EventComment(|eventListenerLeaks|) + fixedCode;
        fixesApplied := fixesApplied + [EventListenerLeakWarning(|eventListenerLeaks|)];
      }
      assert fixedCode == WithEvents(code, |eventListenerLeaks|);
      assert fixesApplied == old(fixesApplied) + EventRecords(|eventListenerLeaks|);
      ghost var afterEvents := fixedCode;
      var resourceLeaks := OfType(warnings, ResourceLeakType);
      if |resourceLeaks| > 0 {
        hasLeaks := true;
        var comment := ResourceComment(|resourceLeaks|);
        if |eventListenerLeaks| == 0 {
          fixedCode := comment + fixedCode;
        } else {
          fixedCode := InsertAfterFirst(fixedCode, EventHeader, comment);
        }
        fixesApplied := fixesApplied + [ResourceLeakWarning(|resourceLeaks|)];
      }
      assert fixedCode == WithResources(afterEvents, |eventListenerLeaks|, |resourceLeaks|);
      assert fixesApplied == old(fixesApplied) + EventRecords(|eventListenerLeaks|) + ResourceRecords(|resourceLeaks|);
      ghost var afterResources := fixedCode;
      var timerLeaks := OfType(warnings, TimerLeakType);
      if |timerLeaks| > 0 {
        hasLeaks := true;
        var comment := TimerComment(|timerLeaks|);
        if !hasLeaks {
          fixedCode := comment + fixedCode;
        } else {
          fixedCode := InsertAfterFirst(fixedCode, LeakHeader, comment);
        }
        fixesApplied := fixesApplied + [TimerLeakWarning(|timerLeaks|)];
      }
      assert fixedCode == WithTimers(afterResources, |timerLeaks|);
      assert fixesApplied == old(fixesApplied) + EventRecords(|eventListenerLeaks|) + ResourceRecords(|resourceLeaks|)
        + TimerRecords(|timerLeaks|);
      LeakRecordsParts(old(fixesApplied), |eventListenerLeaks|, |resourceLeaks|, |timerLeaks|);
    }

    /** Puts the array-bounds block at the top when there are array-subscript warnings. */
    method FixArrayIndexAccess(code: string, warnings: seq<Finding>) returns (fixedCode: string)
      modifies this
      ensures fixedCode == ArrayText(code, CountOf(warnings, ArrayType))
      ensures fixesApplied == old(fixesApplied) + ArrayRecords(CountOf(warnings, ArrayType))
      ensures suggestions == old(suggestions)
    {
      fixedCode := code;
      var arrayIndexWarnings := OfType(warnings, ArrayType);
      if |arrayIndexWarnings| > 0 {
        fixedCode := ArrayComment(|arrayIndexWarnings|) + fixedCode;
        fixesApplied := fixesApplied + [ArrayBoundsWarning(|arrayIndexWarnings|)];
      }
    }

    /**
     * Rewrites each `let x; x +=` of the text into `let x = 0; x +=`,
     * searching the text it was given and moving each offset on by how
     * much the earlier rewrites lengthened the text.
     */
    method FixVariableInitialization(code: string, warnings: seq<Finding>) returns (fixedCode: string)
      modifies this
      ensures fixedCode == Rewritten(code)
      ensures fixesApplied == old(fixesApplied) + InitRecords(AllMatches(Accumulator, code, 0))
      ensures suggestions == old(suggestions)
    {
      fixedCode := code;
      var lastIndex: nat := 0;
      var offset: int := 0;
      ghost var out := "";
      ghost var done: seq<Match> := [];
      var found := Exec(Accumulator, code, lastIndex);
      RewritingEnds(code, lastIndex, found, fixedCode, offset, out, done);
      while found.Some?
        invariant Rewriting(code, lastIndex, found, fixedCode, offset, out, done)
        invariant fixesApplied == old(fixesApplied) + InitRecords(done)
        invariant suggestions == old(suggestions)
        decreases |code| - lastIndex
      {
        var m := found.value;
        StepBounds(code, lastIndex, m, fixedCode, offset, out, done);
        StepSplice(code, lastIndex, m, fixedCode, offset, out, done);
        StepRewrite(code, lastIndex, m, fixedCode, offset, out, done);
        StepMatches(code, lastIndex, m, fixedCode, offset, out, done);
        InitRecordsStep(done, m);
        var replacement := Replacement(m);
        fixedCode := ReplaceSpan(fixedCode, m.start + offset, m.end - m.start, replacement);
        offset := offset + |replacement| - (m.end - m.start);
        fixesApplied := fixesApplied + [VariableInitializationFixed(m.g2)];
        out := out + code[lastIndex..m.start] + replacement;
        done := done + [m];
        lastIndex := m.end;
        found := Exec(Accumulator, code, lastIndex);
        RewritingFold(code, lastIndex, found, fixedCode, offset, out, done);
      }
      RewritingEnds(code, lastIndex, found, fixedCode, offset, out, done);
    }

    /** Appends the suggestions for the findings; the text plays no part. */
    method GenerateSuggestions(issues: seq<Finding>, warnings: seq<Finding>)
      modifies this
      ensures suggestions == old(suggestions) + Suggestions(issues, warnings)
      ensures fixesApplied == old(fixesApplied)
    {
      var undefinedVars := OfType(warnings, "potential_undefined_variable");
      if |undefinedVars| > 0 {
        suggestions := suggestions + [UndefinedVariables(Dedup(UndefinedNames(warnings)))];
      }
      assert suggestions == old(suggestions) + UndefinedSuggestion(warnings);
      ghost var before := suggestions;
      var infiniteLoops := OfType(warnings, "potential_infinite_loop");
      if |infiniteLoops| > 0 {
        suggestions := suggestions + [InfiniteLoops(|infiniteLoops|)];
      }
      assert suggestions == before + LoopSuggestion(warnings);
      before := suggestions;
      var complexFunctions := OfType(warnings, "function_complexity");
      if |complexFunctions| > 0 {
        suggestions := suggestions + [ComplexFunctions(ComplexList(warnings))];
      }
      assert suggestions == before + ComplexSuggestion(warnings);
      before := suggestions;
      if |issues| > 0 {
        suggestions := suggestions + [ManualReview(|issues|)];
      }
      assert suggestions == before + ReviewSuggestion(issues);
      SuggestionsParts(old(suggestions), issues, warnings);
    }
  }
}
