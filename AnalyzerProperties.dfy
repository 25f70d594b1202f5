/**
 * What the analyzer's records mean: each scan reports exactly the matches
 * its test accepts, at the offsets where they start, and the records carry
 * what the matched text says.
 */
module AnalyzerProperties {
  import opened Wrappers
  import opened Text
  import opened Patterns
  import opened Findings
  import opened CodeAnalyzer
  import AF = AutoFixer

  /** A record comes out of a scan exactly when one of the scan's matches contributes it. */
  lemma {:induction false} InReports(pat: Pattern, ms: seq<Match>, declared: set<string>, f: Finding)
    ensures f in Reports(pat, ms, declared) <==> exists m :: m in ms && f in Report(pat, m, declared)
    decreases |ms|
  {
    if |ms| > 0 {
      var init, last := ms[..|ms| - 1], ms[|ms| - 1];
      InReports(pat, init, declared, f);
      assert ms == init + [last];
      if f in Report(pat, last, declared) {
        assert last in ms;
      }
      if exists m :: m in ms && f in Report(pat, m, declared) {
        var m :| m in ms && f in Report(pat, m, declared);
        if m != last {
          assert m in init;
        }
      }
    }
  }

  /** Every match that the loop reports is a genuine match found at its own offset. */
  lemma MatchOfScan(pat: Pattern, code: string, m: Match)
    requires m in AllMatches(pat, code, 0)
    ensures m.start < m.end <= |code| && MatchAt(pat, code, m.start) == Some(m)
  {
    AllMatchesOrdered(pat, code, 0);
    var i :| 0 <= i < |AllMatches(pat, code, 0)| && AllMatches(pat, code, 0)[i] == m;
    assert IsMatchFrom(pat, code, 0, AllMatches(pat, code, 0)[i]);
  }

  /** A record of a scan names the match it comes from. */
  lemma FoundWitness(pat: Pattern, code: string, declared: set<string>, f: Finding) returns (m: Match)
    requires f in Found(pat, code, declared)
    ensures m in AllMatches(pat, code, 0) && f in Report(pat, m, declared)
    ensures m.start < m.end <= |code| && MatchAt(pat, code, m.start) == Some(m)
  {
    InReports(pat, AllMatches(pat, code, 0), declared, f);
    m :| m in AllMatches(pat, code, 0) && f in Report(pat, m, declared);
    MatchOfScan(pat, code, m);
  }

  /** Scans whose every match is reported. */
  predicate AlwaysReports(pat: Pattern) {
    pat.ForEver? || pat.WhileTrue? || pat.EventListener? || pat.NewXhr? || pat.TimerCall?
  }

  /** Such a scan reports one record per match. */
  lemma {:induction false} ReportsEveryMatch(pat: Pattern, ms: seq<Match>, declared: set<string>)
    requires AlwaysReports(pat)
    ensures |Reports(pat, ms, declared)| == |ms|
    decreases |ms|
  {
    if |ms| > 0 {
      ReportsEveryMatch(pat, ms[..|ms| - 1], declared);
    }
  }

  /** Matches taken in order of their starts give records in strictly ascending offset order. */
  lemma {:induction false} ReportsAscending(pat: Pattern, ms: seq<Match>, declared: set<string>)
    requires forall i, j :: 0 <= i < j < |ms| ==> ms[i].start < ms[j].start
    ensures AscendingPositions(Reports(pat, ms, declared))
    decreases |ms|
  {
    if |ms| > 0 {
      var init, last := ms[..|ms| - 1], ms[|ms| - 1];
      assert forall i, j :: 0 <= i < j < |init| ==> init[i] == ms[i] && init[j] == ms[j];
      ReportsAscending(pat, init, declared);
      forall m | m in init
        ensures m.start < last.start
      {
        var k :| 0 <= k < |init| && init[k] == m;
        assert ms[k] == m;
      }
      ReportsBelow(pat, init, declared, last.start);
      AscendingAppend(Reports(pat, init, declared), Report(pat, last, declared), last.start);
    }
  }

  /** The records of matches that all start before `p` all stand before `p`. */
  lemma ReportsBelow(pat: Pattern, ms: seq<Match>, declared: set<string>, p: nat)
    requires forall m :: m in ms ==> m.start < p
    ensures forall f :: f in Reports(pat, ms, declared) ==> f.HasPosition() && f.position < p
  {
    forall f | f in Reports(pat, ms, declared)
      ensures f.HasPosition() && f.position < p
    {
      InReports(pat, ms, declared, f);
    }
  }

  /** Ascending records followed by at most one record beyond all of them stay ascending. */
  lemma AscendingAppend(a: seq<Finding>, b: seq<Finding>, p: nat)
    requires AscendingPositions(a) && (forall f :: f in a ==> f.HasPosition() && f.position < p)
    requires |b| <= 1 && forall f :: f in b ==> f.HasPosition() && f.position == p
    ensures AscendingPositions(a + b)
  {
    var r := a + b;
    forall i, j | 0 <= i < j < |r|
      ensures r[i].HasPosition() && r[j].HasPosition() && r[i].position < r[j].position
    {
      if j < |a| {
        assert r[i] == a[i] && r[j] == a[j];
      } else {
        assert r[i] == a[i] && r[j] == b[0];
      }
    }
  }

  /**
   * A scan reports its records at strictly ascending offsets: one record at
   * most per match, in the order the matches occur in the code.
   */
  lemma FoundAscending(pat: Pattern, code: string, declared: set<string>)
    ensures AscendingPositions(Found(pat, code, declared))
  {
    var ms := AllMatches(pat, code, 0);
    AllMatchesOrdered(pat, code, 0);
    StartsAscending(pat, code, ms);
    ReportsAscending(pat, ms, declared);
  }

  /** Matches in order and without overlap start at strictly ascending offsets. */
  lemma StartsAscending(pat: Pattern, code: string, ms: seq<Match>)
    requires OrderedMatches(pat, code, 0, ms)
    ensures forall i, j :: 0 <= i < j < |ms| ==> ms[i].start < ms[j].start
  {
    forall i, j | 0 <= i < j < |ms|
      ensures ms[i].start < ms[j].start
    {
      assert IsMatchFrom(pat, code, 0, ms[i]);
    }
  }

  /** Every record of a scan lies within the code. */
  lemma FoundWithin(pat: Pattern, code: string, declared: set<string>)
    ensures var r := Found(pat, code, declared);
      forall i :: 0 <= i < |r| ==> r[i].HasPosition() && r[i].position < |code|
  {
    var r := Found(pat, code, declared);
    forall i | 0 <= i < |r|
      ensures r[i].HasPosition() && r[i].position < |code|
    {
      var m := FoundWitness(pat, code, declared, r[i]);
    }
  }

  // ---------------------------------------------------------------------
  // Undefined variables (codeAnalyzer.js:39-70)

  /**
   * A name is reported at an offset exactly when an identifier token with
   * that name starts there, no declaration anywhere in the code introduces
   * it, and it is not one of the fourteen ignored words.
   */
  lemma UndefinedVariableIff(code: string, name: string, pos: nat)
    ensures UndefinedVariable(name, pos) in UndefinedVariableWarnings(code) <==>
      && (exists m :: m in AllMatches(Identifier, code, 0) && m.start == pos && m.g1 == name)
      && name !in Declared(code)
      && name !in IgnoredWords
  {
    InReports(Identifier, AllMatches(Identifier, code, 0), Declared(code), UndefinedVariable(name, pos));
  }

  /**
   * One warning per occurrence, not per name: the warnings stand at
   * strictly ascending offsets, so a name used three times is reported
   * three times, in the order it occurs.
   */
  lemma UndefinedVariableOrder(code: string)
    ensures var ws := UndefinedVariableWarnings(code);
      forall i, j :: 0 <= i < j < |ws| ==> ws[i].UndefinedVariable? && ws[j].UndefinedVariable? && ws[i].position < ws[j].position
  {
    var ws := UndefinedVariableWarnings(code);
    FoundAscending(Identifier, code, Declared(code));
    forall i | 0 <= i < |ws|
      ensures ws[i].UndefinedVariable?
    {
      UndefinedVariableText(code, ws[i]);
    }
  }

  /** Every record of the scan is an undefined-variable warning whose name is the text at its offset. */
  lemma UndefinedVariableText(code: string, f: Finding)
    requires f in UndefinedVariableWarnings(code)
    ensures f.UndefinedVariable?
    ensures f.position + |f.variable| <= |code| && code[f.position..f.position + |f.variable|] == f.variable
    ensures f.variable !in Declared(code) && f.variable !in IgnoredWords
  {
    var m := FoundWitness(Identifier, code, Declared(code), f);
    IdentifierReport(code, m, Declared(code), f);
  }

  /** The record an identifier match contributes names the token at its offset. */
  lemma IdentifierReport(code: string, m: Match, declared: set<string>, f: Finding)
    requires m.start <= |code| && MatchAt(Identifier, code, m.start) == Some(m)
    requires f in Report(Identifier, m, declared)
    ensures f == UndefinedVariable(m.g1, m.start) && m.g1 !in declared && m.g1 !in IgnoredWords
    ensures m.start + |m.g1| <= |code| && code[m.start..m.start + |m.g1|] == m.g1
  {
    IdentifierMatch(code, m);
  }

  lemma IdentifierMatch(code: string, m: Match)
    requires m.start <= |code| && MatchAt(Identifier, code, m.start) == Some(m)
    ensures IdentifierAt(code, m.start) == Some(m)
  {
  }

  // ---------------------------------------------------------------------
  // Unreachable code (codeAnalyzer.js:72-92)

  lemma UnreachableIssuesSplit(code: string)
    ensures UnreachableIssues(code) == Found(ReturnThenCode, code, {}) + Found(ThrowThenCode, code, {})
  {
    assert UnreachablePatterns[..1] == [ReturnThenCode];
    assert [ReturnThenCode][..0] == [];
    assert FoundEach([ReturnThenCode], code) == [] + Found(ReturnThenCode, code, {});
    assert [] + Found(ReturnThenCode, code, {}) == Found(ReturnThenCode, code, {});
  }

  /**
   * Code with issues of one kind only, all `return` or all `throw`, has its
   * issues at strictly ascending offsets within the code.
   */
  lemma OneKindAscending(code: string)
    requires Found(ReturnThenCode, code, {}) == [] || Found(ThrowThenCode, code, {}) == []
    ensures AscendingPositions(Issues(code))
    ensures forall f :: f in Issues(code) ==> f.UnreachableCode? && f.position <= |code|
  {
    var pat := OneKind(code);
    FoundAscending(pat, code, {});
    FoundWithin(pat, code, {});
    ReportsUnreachable(pat, AllMatches(pat, code, 0), {});
    var issues := Issues(code);
    forall f | f in issues
      ensures f.UnreachableCode? && f.position <= |code|
    {
      var k :| 0 <= k < |issues| && issues[k] == f;
    }
  }

  /**
   * The analyser lists every `return` issue before every `throw` issue, and
   * the fixer puts its comments in at drifting offsets that assume order.
   * When the code has issues of one kind only, the offsets come in order and
   * within the text: the comments then stand between the pieces of the
   * original code cut at the issues' offsets, and those pieces put together
   * are the code.
   */
  lemma OneKindInOrder(code: string)
    requires Found(ReturnThenCode, code, {}) == [] || Found(ThrowThenCode, code, {}) == []
    ensures AF.CommentsBetween(code, Issues(code))
  {
    OneKindAscending(code);
    AF.CommentsBetweenPieces(code, Issues(code));
  }

  /** The one scan that reports every issue of such code. */
  lemma OneKind(code: string) returns (pat: Pattern)
    requires Found(ReturnThenCode, code, {}) == [] || Found(ThrowThenCode, code, {}) == []
    ensures pat.ReturnThenCode? || pat.ThrowThenCode?
    ensures Issues(code) == Found(pat, code, {})
  {
    UnreachableIssuesSplit(code);
    var rs, ts := Found(ReturnThenCode, code, {}), Found(ThrowThenCode, code, {});
    if rs == [] {
      pat := ThrowThenCode;
      assert rs + ts == ts;
    } else {
      pat := ReturnThenCode;
      assert rs + ts == rs;
    }
  }

  /**
   * An issue with snippet `c` is reported at `pos` exactly when a `return`
   * or `throw` match starts there whose captured code is not blank, and `c`
   * is the first fifty characters of that code followed by `...`.
   */
  lemma UnreachableIssueIff(code: string, c: string, pos: nat)
    ensures UnreachableCode(c, pos) in UnreachableIssues(code) <==>
      exists m :: (m in AllMatches(ReturnThenCode, code, 0) || m in AllMatches(ThrowThenCode, code, 0))
        && m.start == pos && !IsBlank(m.g1) && c == Prefix(m.g1, 50) + "..."
  {
    UnreachableIssuesSplit(code);
    UnreachableFoundIff(ReturnThenCode, code, c, pos);
    UnreachableFoundIff(ThrowThenCode, code, c, pos);
  }

  /** The same, for one of the two patterns. */
  lemma UnreachableFoundIff(pat: Pattern, code: string, c: string, pos: nat)
    requires pat.ReturnThenCode? || pat.ThrowThenCode?
    ensures UnreachableCode(c, pos) in Found(pat, code, {}) <==>
      exists m :: m in AllMatches(pat, code, 0) && m.start == pos && !IsBlank(m.g1) && c == Prefix(m.g1, 50) + "..."
  {
    InReports(pat, AllMatches(pat, code, 0), {}, UnreachableCode(c, pos));
  }

  /** What a `return` match says about the text. */
  lemma ReturnMatchText(code: string, m: Match)
    requires m in AllMatches(ReturnThenCode, code, 0)
    ensures ClosedBody(code, m) && At(code, m.start, "return")
  {
    MatchOfScan(ReturnThenCode, code, m);
  }

  /** What a `throw` match says about the text. */
  lemma ThrowMatchText(code: string, m: Match)
    requires m in AllMatches(ThrowThenCode, code, 0)
    ensures ClosedBody(code, m) && At(code, m.start, "throw")
  {
    MatchOfScan(ThrowThenCode, code, m);
  }

  /** The record one `return` or `throw` match contributes, if any. */
  lemma UnreachableReport(pat: Pattern, m: Match, f: Finding)
    requires pat.ReturnThenCode? || pat.ThrowThenCode?
    requires f in Report(pat, m, {})
    ensures f == UnreachableCode(Prefix(m.g1, 50) + "...", m.start) && !IsBlank(m.g1)
    ensures 3 <= |f.code| <= 53 && f.code[|f.code| - 3..] == "..."
  {
  }

  /**
   * Every issue points at a `return` or a `throw`, carries at most 53
   * characters ending in `...`, and the code it quotes is non-blank and
   * ends on a line that a `}` closes.
   */
  lemma UnreachableIssueText(code: string, f: Finding)
    requires f in UnreachableIssues(code)
    ensures f.UnreachableCode?
    ensures At(code, f.position, "return") || At(code, f.position, "throw")
    ensures 3 <= |f.code| <= 53 && f.code[|f.code| - 3..] == "..."
    ensures exists m: Match :: m.start == f.position && ClosedBody(code, m) && !IsBlank(m.g1) && f.code == Prefix(m.g1, 50) + "..."
  {
    UnreachableIssuesSplit(code);
    if f in Found(ReturnThenCode, code, {}) {
      InReports(ReturnThenCode, AllMatches(ReturnThenCode, code, 0), {}, f);
      var m :| m in AllMatches(ReturnThenCode, code, 0) && f in Report(ReturnThenCode, m, {});
      UnreachableReport(ReturnThenCode, m, f);
      ReturnMatchText(code, m);
    } else {
      InReports(ThrowThenCode, AllMatches(ThrowThenCode, code, 0), {}, f);
      var m :| m in AllMatches(ThrowThenCode, code, 0) && f in Report(ThrowThenCode, m, {});
      UnreachableReport(ThrowThenCode, m, f);
      ThrowMatchText(code, m);
    }
  }

  // ---------------------------------------------------------------------
  // Infinite loops (codeAnalyzer.js:94-111)

  lemma LoopWarningsSplit(code: string)
    ensures LoopWarnings(code) == Found(ForEver, code, {}) + Found(WhileTrue, code, {})
  {
    assert LoopPatterns[..1] == [ForEver];
    assert [ForEver][..0] == [];
    assert FoundEach([ForEver], code) == [] + Found(ForEver, code, {});
    assert [] + Found(ForEver, code, {}) == Found(ForEver, code, {});
  }

  /** A loop warning sits where its `for` or `while` match starts. */
  lemma LoopMatchText(pat: Pattern, code: string, f: Finding)
    requires pat.ForEver? || pat.WhileTrue?
    requires f in Found(pat, code, {})
    ensures f.InfiniteLoop? && (At(code, f.position, "for") || At(code, f.position, "while"))
  {
    InReports(pat, AllMatches(pat, code, 0), {}, f);
    var m :| m in AllMatches(pat, code, 0) && f in Report(pat, m, {});
    MatchOfScan(pat, code, m);
  }

  /** One warning per `for(;;)` and per `while(true)` match, each at a `for` or a `while`. */
  lemma LoopWarningsCount(code: string)
    ensures |LoopWarnings(code)| == |AllMatches(ForEver, code, 0)| + |AllMatches(WhileTrue, code, 0)|
    ensures forall f :: f in LoopWarnings(code) ==>
      f.InfiniteLoop? && (At(code, f.position, "for") || At(code, f.position, "while"))
  {
    LoopWarningsSplit(code);
    ReportsEveryMatch(ForEver, AllMatches(ForEver, code, 0), {});
    ReportsEveryMatch(WhileTrue, AllMatches(WhileTrue, code, 0), {});
    forall f | f in LoopWarnings(code)
      ensures f.InfiniteLoop? && (At(code, f.position, "for") || At(code, f.position, "while"))
    {
      if f in Found(ForEver, code, {}) {
        LoopMatchText(ForEver, code, f);
      } else {
        LoopMatchText(WhileTrue, code, f);
      }
    }
  }

  /** A `for` with three semicolons is not a `for(;;)`. */
  lemma ThreeSemicolonsNotForever()
    ensures MatchAt(ForEver, "for(;;;)", 0).None?
  {
    var s := "for(;;;)";
    assert SkipTo(s, 3, '(') == Some(4) by { assert SpaceEnd(s, 3) == 3; }
    assert SkipTo(s, 4, ';') == Some(5) by { assert SpaceEnd(s, 4) == 4; }
    assert SkipTo(s, 5, ';') == Some(6) by { assert SpaceEnd(s, 5) == 5; }
    assert SkipTo(s, 6, ')') == None by { assert SpaceEnd(s, 6) == 6; }
    assert ForEverAt(s, 0) == None;
  }

  // ---------------------------------------------------------------------
  // Resource leaks (codeAnalyzer.js:113-147)

  /** The `type` of the record a scan that reports every match produces. */
  function ReportType(pat: Pattern): string
    requires AlwaysReports(pat)
  {
    match pat
    case ForEver => "potential_infinite_loop"
    case WhileTrue => "potential_infinite_loop"
    case EventListener => "potential_event_listener_leak"
    case NewXhr => "potential_resource_leak"
    case TimerCall => "potential_timer_leak"
  }

  /** Every record of such a scan carries the scan's type. */
  lemma {:induction false} ReportsTyped(pat: Pattern, ms: seq<Match>)
    requires AlwaysReports(pat)
    ensures forall f :: f in Reports(pat, ms, {}) ==> f.Type() == ReportType(pat)
    decreases |ms|
  {
    if |ms| > 0 {
      ReportsTyped(pat, ms[..|ms| - 1]);
      ReportTyped(pat, ms[|ms| - 1]);
    }
  }

  lemma ReportTyped(pat: Pattern, m: Match)
    requires AlwaysReports(pat)
    ensures forall f :: f in Report(pat, m, {}) ==> f.Type() == ReportType(pat)
  {
  }

  /** Filtering three groups of records, each of a single distinct type, recovers each group. */
  lemma OfTypeGroups(e: seq<Finding>, x: seq<Finding>, t: seq<Finding>, te: string, tx: string, tt: string)
    requires te != tx && tx != tt && te != tt
    requires forall f :: f in e ==> f.Type() == te
    requires forall f :: f in x ==> f.Type() == tx
    requires forall f :: f in t ==> f.Type() == tt
    ensures OfType(e + x + t, te) == e && OfType(e + x + t, tx) == x && OfType(e + x + t, tt) == t
  {
    OfTypeFirstGroup(e, x, t, te);
    OfTypeMiddleGroup(e, x, t, tx);
    OfTypeLastGroup(e, x, t, tt);
  }

  lemma OfTypeFirstGroup(e: seq<Finding>, x: seq<Finding>, t: seq<Finding>, te: string)
    requires forall f :: f in e ==> f.Type() == te
    requires forall f :: f in x ==> f.Type() != te
    requires forall f :: f in t ==> f.Type() != te
    ensures OfType(e + x + t, te) == e
  {
    OfTypeAppend(e + x, t, te);
    OfTypeAppend(e, x, te);
    OfTypeAll(e, te);
    OfTypeNone(x, te);
    OfTypeNone(t, te);
    assert e + [] + [] == e;
  }

  lemma OfTypeMiddleGroup(e: seq<Finding>, x: seq<Finding>, t: seq<Finding>, tx: string)
    requires forall f :: f in x ==> f.Type() == tx
    requires forall f :: f in e ==> f.Type() != tx
    requires forall f :: f in t ==> f.Type() != tx
    ensures OfType(e + x + t, tx) == x
  {
    OfTypeAppend(e + x, t, tx);
    OfTypeAppend(e, x, tx);
    OfTypeNone(e, tx);
    OfTypeAll(x, tx);
    OfTypeNone(t, tx);
    assert [] + x + [] == x;
  }

  lemma OfTypeLastGroup(e: seq<Finding>, x: seq<Finding>, t: seq<Finding>, tt: string)
    requires forall f :: f in t ==> f.Type() == tt
    requires forall f :: f in e ==> f.Type() != tt
    requires forall f :: f in x ==> f.Type() != tt
    ensures OfType(e + x + t, tt) == t
  {
    OfTypeAppend(e + x, t, tt);
    OfTypeAppend(e, x, tt);
    OfTypeNone(e, tt);
    OfTypeNone(x, tt);
    OfTypeAll(t, tt);
    assert [] + [] + t == t;
  }

  /**
   * The leak scan reports one event-listener warning per listener match,
   * one resource warning per `new XMLHttpRequest()`, and one timer warning
   * per timer call.
   */
  lemma LeakWarningCounts(code: string)
    ensures |OfType(LeakWarnings(code), "potential_event_listener_leak")| == |AllMatches(EventListener, code, 0)|
    ensures |OfType(LeakWarnings(code), "potential_resource_leak")| == |AllMatches(NewXhr, code, 0)|
    ensures |OfType(LeakWarnings(code), "potential_timer_leak")| == |AllMatches(TimerCall, code, 0)|
  {
    ReportsEveryMatch(EventListener, AllMatches(EventListener, code, 0), {});
    ReportsEveryMatch(NewXhr, AllMatches(NewXhr, code, 0), {});
    ReportsEveryMatch(TimerCall, AllMatches(TimerCall, code, 0), {});
    ReportsTyped(EventListener, AllMatches(EventListener, code, 0));
    ReportsTyped(NewXhr, AllMatches(NewXhr, code, 0));
    ReportsTyped(TimerCall, AllMatches(TimerCall, code, 0));
    OfTypeGroups(Found(EventListener, code, {}), Found(NewXhr, code, {}), Found(TimerCall, code, {}),
      "potential_event_listener_leak", "potential_resource_leak", "potential_timer_leak");
  }

  // ---------------------------------------------------------------------
  // Error handling (codeAnalyzer.js:149-174)

  /** Where a `try {...} catch(` matches, a `catch(` matches too. */
  lemma TryCatchWitness(code: string) returns (k: nat)
    requires Occurs(TryCatch, code)
    ensures k < |code| && CatchCallAt(code, k).Some?
  {
    var m := Exec(TryCatch, code, 0).value;
    assert MatchAt(TryCatch, code, m.start) == Some(m);
    k :| m.start <= k < |code| && CatchCallAt(code, k).Some?;
  }

  lemma CatchCallIsMatch(code: string, k: nat)
    requires k < |code| && CatchCallAt(code, k).Some?
    ensures MatchAt(CatchCall, code, k).Some?
  {
  }

  /** A `try {...} catch(` always contains a `catch(`. */
  lemma TryCatchHasCatch(code: string)
    ensures Occurs(TryCatch, code) ==> Occurs(CatchCall, code)
  {
    if Occurs(TryCatch, code) {
      var k := TryCatchWitness(code);
      CatchCallIsMatch(code, k);
      MatchOccurs(CatchCall, code, k);
    }
  }

  /**
   * At most one missing-error-handling warning, and there is one exactly
   * when asynchronous code appears and no `catch(` does: the separate
   * try/catch test never changes the outcome.
   */
  lemma ErrorHandlingIff(code: string)
    ensures |ErrorHandlingWarnings(code)| <= 1
    ensures ErrorHandlingWarnings(code) == [MissingErrorHandling] <==> HasAsync(code) && !Occurs(CatchCall, code)
    ensures ErrorHandlingWarnings(code) == [] <==> !HasAsync(code) || Occurs(CatchCall, code)
  {
    TryCatchHasCatch(code);
  }

  // ---------------------------------------------------------------------
  // Array subscripts (codeAnalyzer.js:176-196)

  /** A subscript is reported exactly when the scan matched it and it is not a plain decimal literal. */
  lemma ArrayWarningIff(code: string, arrayName: string, index: string, pos: nat)
    ensures ArrayIndexOutOfBounds(arrayName, index, pos) in ArrayWarnings(code) <==>
      && (exists m :: m in AllMatches(ArrayAccess, code, 0) && m.start == pos && m.g1 == arrayName && m.g2 == index)
      && !AllDigits(index)
  {
    InReports(ArrayAccess, AllMatches(ArrayAccess, code, 0), {}, ArrayIndexOutOfBounds(arrayName, index, pos));
  }

  /** What an array-subscript match says about the text. */
  lemma ArrayAccessText(code: string, m: Match)
    requires m.start <= |code| && ArrayAccessAt(code, m.start) == Some(m)
    ensures |m.g2| > 0 && forall k :: 0 <= k < |m.g2| ==> !IsLineTerminator(m.g2[k])
    ensures forall k :: 1 <= k < |m.g2| ==> m.g2[k] != ']'
    ensures var n := |m.g1| + |m.g2| + 2;
      m.start + n <= |code| && code[m.start..m.start + n] == m.g1 + "[" + m.g2 + "]"
  {
    assert |code[m.start..m.end]| == |m.g1 + "[" + m.g2 + "]"|;
  }

  lemma ArrayAccessMatch(code: string, m: Match)
    requires m.start <= |code| && MatchAt(ArrayAccess, code, m.start) == Some(m)
    ensures ArrayAccessAt(code, m.start) == Some(m)
  {
  }

  /** The subscript match behind a warning. */
  lemma ArrayWarningMatch(code: string, f: Finding) returns (m: Match)
    requires f in ArrayWarnings(code)
    ensures m.start <= |code| && ArrayAccessAt(code, m.start) == Some(m)
    ensures f == ArrayIndexOutOfBounds(m.g1, m.g2, m.start) && !AllDigits(m.g2)
  {
    m := FoundWitness(ArrayAccess, code, {}, f);
    ArrayAccessMatch(code, m);
  }

  /**
   * Every subscript warning quotes `array[index]` exactly as it stands at its
   * offset; the index is non-empty, not all digits, stays on one line, and
   * has no `]` after its first character.
   */
  lemma ArrayWarningText(code: string, f: Finding)
    requires f in ArrayWarnings(code)
    ensures f.ArrayIndexOutOfBounds?
    ensures !AllDigits(f.index) && |f.index| > 0
    ensures forall k :: 0 <= k < |f.index| ==> !IsLineTerminator(f.index[k])
    ensures forall k :: 1 <= k < |f.index| ==> f.index[k] != ']'
    ensures var n := |f.arrayName| + |f.index| + 2;
      f.position + n <= |code| && code[f.position..f.position + n] == f.arrayName + "[" + f.index + "]"
  {
    var m := ArrayWarningMatch(code, f);
    ArrayAccessText(code, m);
  }

  // ---------------------------------------------------------------------
  // Function length (codeAnalyzer.js:198-220)

  /** The record one function match contributes: its line count is the number of breaks plus one. */
  lemma ComplexityReport(m: Match, name: string, lines: nat, pos: nat)
    ensures FunctionComplexity(name, lines, pos) in Report(FunctionDecl, m, {}) <==>
      m.start == pos && m.g1 == name && Count(m.g2, '\n') >= 50 && lines == Count(m.g2, '\n') + 1
  {
    SplitLength(m.g2, '\n');
  }

  /**
   * A function is reported exactly when its matched body holds at least 50
   * line breaks, and the reported line count is the number of breaks plus one.
   */
  lemma ComplexityIff(code: string, name: string, lines: nat, pos: nat)
    ensures FunctionComplexity(name, lines, pos) in ComplexityWarnings(code) <==>
      exists m :: m in AllMatches(FunctionDecl, code, 0) && m.start == pos && m.g1 == name
        && Count(m.g2, '\n') >= 50 && lines == Count(m.g2, '\n') + 1
  {
    var f := FunctionComplexity(name, lines, pos);
    InReports(FunctionDecl, AllMatches(FunctionDecl, code, 0), {}, f);
    forall m | m in AllMatches(FunctionDecl, code, 0)
      ensures f in Report(FunctionDecl, m, {}) <==>
        m.start == pos && m.g1 == name && Count(m.g2, '\n') >= 50 && lines == Count(m.g2, '\n') + 1
    {
      ComplexityReport(m, name, lines, pos);
    }
  }

  // ---------------------------------------------------------------------
  // Issues and warnings

  /** Only the two unreachable-code scans produce unreachable-code records, which `analyze` files as issues. */
  lemma {:induction false} ReportsUnreachable(pat: Pattern, ms: seq<Match>, declared: set<string>)
    ensures forall f :: f in Reports(pat, ms, declared) ==>
      (f.UnreachableCode? <==> pat.ReturnThenCode? || pat.ThrowThenCode?)
    decreases |ms|
  {
    if |ms| > 0 {
      ReportsUnreachable(pat, ms[..|ms| - 1], declared);
    }
  }
}
