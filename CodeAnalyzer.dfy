/**
 * The static analyzer: seven scans over the source text, each an `exec`
 * loop over one or two expressions, collecting `issues` (unreachable code)
 * and `warnings` (everything else) on the analyzer object.
 */
module CodeAnalyzer {
  import opened Text
  import opened Patterns
  import opened Findings

  /** Identifiers never reported as undefined, whether declared or not. */
  const IgnoredWords: seq<string> := ["if", "for", "while", "function", "return", "console", "log",
                                      "true", "false", "null", "undefined", "this", "typeof", "instanceof"]

  /** The result of one analysis; the time stamp is not modelled. */
  datatype Analysis = Analysis(fileName: string, issues: seq<Finding>, warnings: seq<Finding>)

  /** The names declared by a sequence of declaration matches. */
  function DeclaredNames(ms: seq<Match>): set<string> {
    if |ms| == 0 then {} else DeclaredNames(ms[..|ms| - 1]) + {ms[|ms| - 1].g2}
  }

  /** Every name some `let`/`const`/`var` declaration in `code` introduces. */
  function Declared(code: string): set<string> {
    DeclaredNames(AllMatches(Declaration, code, 0))
  }

  /** What one match contributes: at most one record, at the match's offset. */
  function Report(pat: Pattern, m: Match, declared: set<string>): (r: seq<Finding>)
    ensures |r| <= 1
    ensures forall f :: f in r ==> f.HasPosition() && f.position == m.start
  {
    match pat
    case Identifier =>
      if m.g1 !in declared && m.g1 !in IgnoredWords then [UndefinedVariable(m.g1, m.start)] else []
    case ReturnThenCode =>
      if !IsBlank(m.g1) then [UnreachableCode(Prefix(m.g1, 50) + "...", m.start)] else []
    case ThrowThenCode =>
      if !IsBlank(m.g1) then [UnreachableCode(Prefix(m.g1, 50) + "...", m.start)] else []
    case ForEver => [InfiniteLoop(m.start)]
    case WhileTrue => [InfiniteLoop(m.start)]
    case EventListener => [EventListenerLeak(m.g1, m.g2, m.start)]
    case NewXhr => [ResourceLeak("XMLHttpRequest", m.start)]
    case TimerCall => [TimerLeak(m.g1, m.start)]
    case ArrayAccess =>
      if !AllDigits(m.g2) then [ArrayIndexOutOfBounds(m.g1, m.g2, m.start)] else []
    case FunctionDecl =>
      var lineCount := |Split(m.g2, '\n')|;
      if lineCount > 50 then [FunctionComplexity(m.g1, lineCount, m.start)] else []
    case _ => []
  }

  /** The records of a sequence of matches, in order. */
  function Reports(pat: Pattern, ms: seq<Match>, declared: set<string>): (r: seq<Finding>)
    ensures |r| <= |ms|
  {
    if |ms| == 0 then []
    else Reports(pat, ms[..|ms| - 1], declared) + Report(pat, ms[|ms| - 1], declared)
  }

  /** The records one scan loop reports over the whole of `code`. */
  function Found(pat: Pattern, code: string, declared: set<string>): seq<Finding> {
    Reports(pat, AllMatches(pat, code, 0), declared)
  }

  function UndefinedVariableWarnings(code: string): seq<Finding> {
    Found(Identifier, code, Declared(code))
  }

  /** The records of several scans run one after the other. */
  function FoundEach(pats: seq<Pattern>, code: string): seq<Finding> {
    if |pats| == 0 then [] else FoundEach(pats[..|pats| - 1], code) + Found(pats[|pats| - 1], code, {})
  }

  const UnreachablePatterns: seq<Pattern> := [ReturnThenCode, ThrowThenCode]
  const LoopPatterns: seq<Pattern> := [ForEver, WhileTrue]
  const AsyncPatterns: seq<Pattern> := [FetchCall, NewPromise, AsyncWord]

  function UnreachableIssues(code: string): seq<Finding> {
    FoundEach(UnreachablePatterns, code)
  }

  function LoopWarnings(code: string): seq<Finding> {
    FoundEach(LoopPatterns, code)
  }

  function LeakWarnings(code: string): seq<Finding> {
    Found(EventListener, code, {}) + Found(NewXhr, code, {}) + Found(TimerCall, code, {})
  }

  predicate HasAsync(code: string) {
    Occurs(FetchCall, code) || Occurs(NewPromise, code) || Occurs(AsyncWord, code)
  }

  function ErrorHandlingWarnings(code: string): seq<Finding> {
    if HasAsync(code) && !Occurs(CatchCall, code) && !Occurs(TryCatch, code) then [MissingErrorHandling] else []
  }

  function ArrayWarnings(code: string): seq<Finding> {
    Found(ArrayAccess, code, {})
  }

  function ComplexityWarnings(code: string): seq<Finding> {
    Found(FunctionDecl, code, {})
  }

  /** Everything `analyze` leaves in `issues`. */
  function Issues(code: string): seq<Finding> {
    UnreachableIssues(code)
  }

  /** Everything `analyze` leaves in `warnings`, in the order of the scans. */
  function Warnings(code: string): seq<Finding> {
    UndefinedVariableWarnings(code) + LoopWarnings(code) + LeakWarnings(code)
    + ErrorHandlingWarnings(code) + ArrayWarnings(code) + ComplexityWarnings(code)
  }

  /** The `exec` loop collecting every declared name. */
  method CollectDeclarations(code: string) returns (declarations: set<string>)
    ensures declarations == Declared(code)
  {
    declarations := {};
    ghost var done: seq<Match> := [];
    var lastIndex: nat := 0;
    var r := Exec(Declaration, code, lastIndex);
    while r.Some?
      invariant lastIndex <= |code| && r == Exec(Declaration, code, lastIndex)
      invariant AllMatches(Declaration, code, 0) == done + AllMatches(Declaration, code, lastIndex)
      invariant declarations == DeclaredNames(done)
      decreases |code| - lastIndex
    {
      var m := r.value;
      ScanStep(Declaration, code, done, lastIndex);
      declarations := declarations + {m.g2};
      assert (done + [m])[..|done + [m]| - 1] == done;
      done := done + [m];
      lastIndex := m.end;
      r := Exec(Declaration, code, lastIndex);
    }
    ScanStep(Declaration, code, done, lastIndex);
  }

  /** Running one more scan appends its records. */
  lemma FoundEachStep(pats: seq<Pattern>, i: nat, code: string)
    requires i < |pats|
    ensures FoundEach(pats[..i + 1], code) == FoundEach(pats[..i], code) + Found(pats[i], code, {})
  {
    assert pats[..i + 1][..i] == pats[..i];
  }

  /** The `exec` loop of one scan: the records its matches contribute, in order. */
  method Scan(pat: Pattern, code: string, declared: set<string>) returns (found: seq<Finding>)
    ensures found == Found(pat, code, declared)
  {
    found := [];
    ghost var done: seq<Match> := [];
    var lastIndex: nat := 0;
    var r := Exec(pat, code, lastIndex);
    while r.Some?
      invariant lastIndex <= |code| && r == Exec(pat, code, lastIndex)
      invariant AllMatches(pat, code, 0) == done + AllMatches(pat, code, lastIndex)
      invariant found == Reports(pat, done, declared)
      decreases |code| - lastIndex
    {
      var m := r.value;
      ScanStep(pat, code, done, lastIndex);
      found := found + Report(pat, m, declared);
      assert (done + [m])[..|done + [m]| - 1] == done;
      done := done + [m];
      lastIndex := m.end;
      r := Exec(pat, code, lastIndex);
    }
    ScanStep(pat, code, done, lastIndex);
  }

  /** The analyzer object: the records of the last analysis. */
  class CodeAnalyzer {
    var issues: seq<Finding>
    var warnings: seq<Finding>

    constructor ()
      ensures issues == [] && warnings == []
    {
      issues := [];
      warnings := [];
    }

    /** Runs the seven scans on a fresh record list and returns the result. */
    method Analyze(sourceCode: string, fileName: string) returns (result: Analysis)
      modifies this
      ensures issues == Issues(sourceCode) && warnings == Warnings(sourceCode)
      ensures result == Analysis(fileName, issues, warnings)
    {
      issues := [];
      warnings := [];
      CheckUndefinedVariables(sourceCode);
      AppendEmpty(UndefinedVariableWarnings(sourceCode));
      CheckUnreachableCode(sourceCode);
      AppendEmpty(UnreachableIssues(sourceCode));
      CheckInfiniteLoops(sourceCode);
      CheckResourceLeaks(sourceCode);
      CheckErrorHandling(sourceCode);
      CheckArrayIndexAccess(sourceCode);
      CheckFunctionComplexity(sourceCode);
      result := Analysis(fileName, issues, warnings);
    }

    method CheckUndefinedVariables(code: string)
      modifies this
      ensures issues == old(issues) && warnings == old(warnings) + UndefinedVariableWarnings(code)
    {
      var declarations := CollectDeclarations(code);
      var usages := Scan(Identifier, code, declarations);
      warnings := warnings + usages;
    }

    method CheckUnreachableCode(code: string)
      modifies this
      ensures issues == old(issues) + UnreachableIssues(code) && warnings == old(warnings)
    {
      var patterns := UnreachablePatterns;
      for i := 0 to |patterns|
        invariant issues == old(issues) + FoundEach(patterns[..i], code) && warnings == old(warnings)
      {
        var found := Scan(patterns[i], code, {});
        FoundEachStep(patterns, i, code);
        AppendAssoc(old(issues), FoundEach(patterns[..i], code), found);
        issues := issues + found;
      }
      assert patterns[..|patterns|] == patterns;
    }

    method CheckInfiniteLoops(code: string)
      modifies this
      ensures issues == old(issues) && warnings == old(warnings) + LoopWarnings(code)
    {
      var patterns := LoopPatterns;
      for i := 0 to |patterns|
        invariant issues == old(issues) && warnings == old(warnings) + FoundEach(patterns[..i], code)
      {
        var found := Scan(patterns[i], code, {});
        FoundEachStep(patterns, i, code);
        AppendAssoc(old(warnings), FoundEach(patterns[..i], code), found);
        warnings := warnings + found;
      }
      assert patterns[..|patterns|] == patterns;
    }

    method CheckResourceLeaks(code: string)
      modifies this
      ensures issues == old(issues) && warnings == old(warnings) + LeakWarnings(code)
    {
      var listeners := Scan(EventListener, code, {});
      warnings := warnings + listeners;
      var requests := Scan(NewXhr, code, {});
      AppendAssoc(old(warnings), listeners, requests);
      warnings := warnings + requests;
      var timers := Scan(TimerCall, code, {});
      AppendAssoc(old(warnings), listeners + requests, timers);
      warnings := warnings + timers;
    }

    method CheckErrorHandling(code: string)
      modifies this
      ensures issues == old(issues) && warnings == old(warnings) + ErrorHandlingWarnings(code)
    {
      var patterns := AsyncPatterns;
      var hasAsync := false;
      var i := 0;
      while i < |patterns|
        invariant 0 <= i <= |patterns| && !hasAsync
        invariant forall k :: 0 <= k < i ==> !Occurs(patterns[k], code)
      {
        if Occurs(patterns[i], code) {
          hasAsync := true;
          break;
        }
        i := i + 1;
      }
      assert patterns[0] == FetchCall && patterns[1] == NewPromise && patterns[2] == AsyncWord;
      assert hasAsync <==> HasAsync(code);
      var hasCatch := Occurs(CatchCall, code);
      var hasTryCatch := Occurs(TryCatch, code);
      if hasAsync && !hasCatch && !hasTryCatch {
        warnings := warnings + [MissingErrorHandling];
      }
    }

    method CheckArrayIndexAccess(code: string)
      modifies this
      ensures issues == old(issues) && warnings == old(warnings) + ArrayWarnings(code)
    {
      var found := Scan(ArrayAccess, code, {});
      warnings := warnings + found;
    }

    method CheckFunctionComplexity(code: string)
      modifies this
      ensures issues == old(issues) && warnings == old(warnings) + ComplexityWarnings(code)
    {
      var found := Scan(FunctionDecl, code, {});
      warnings := warnings + found;
    }
  }
}
