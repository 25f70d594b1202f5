/**
 * The debug controller: the option merge of its constructor, the
 * single-file pipeline (read, analyse, fix, summarise), the sequential
 * multi-file loop that turns failures into error entries, the summaries,
 * the code-health score and the count of findings by type.
 *
 * Reading a file and the runtime simulator are an oracle: for each path it
 * gives either the text and the number of execution errors the simulator
 * reported, or the message of the error the read threw.
 */
module DebugController {
  import opened Wrappers
  import opened Findings
  import CA = CodeAnalyzer
  import AF = AutoFixer

  // ---------------------------------------------------------------------
  // JavaScript values and the option merge (debugController.js:13-24)

  /** The option values a caller can pass; a missing key reads as `undefined`. */
  datatype Value = Undefined | Null | Bool(b: bool) | Number(n: int) | Str(s: string)

  /** JavaScript truthiness (`NaN` is not modelled). */
  predicate Truthy(v: Value) {
    match v
    case Undefined => false
    case Null => false
    case Bool(b) => b
    case Number(n) => n != 0
    case Str(s) => s != ""
  }

  /** `options[key]`. */
  function Lookup(options: map<string, Value>, key: string): Value {
    if key in options then options[key] else Undefined
  }

  /**
   * `{saveReport: options.saveReport !== false, saveFixedCode: …,
   * outputDir: options.outputDir || '.', ...options}`: the computed values,
   * then every key of `options` copied over them.
   */
  function MergeOptions(options: map<string, Value>): (merged: map<string, Value>)
    ensures merged.Keys == options.Keys + {"saveReport", "saveFixedCode", "outputDir"}
    ensures forall k :: k in options ==> merged[k] == options[k]
  {
    var outputDir := Lookup(options, "outputDir");
    map["saveReport" := Bool(Lookup(options, "saveReport") != Bool(false)),
        "saveFixedCode" := Bool(Lookup(options, "saveFixedCode") != Bool(false)),
        "outputDir" := if Truthy(outputDir) then outputDir else Str(".")]
    + options
  }

  /** With no options both files are saved, into the current directory. */
  lemma MergeDefaults()
    ensures MergeOptions(map[]) == map["saveReport" := Bool(true), "saveFixedCode" := Bool(true), "outputDir" := Str(".")]
  {
  }

  /**
   * What the controller does with the merged options: it saves the report
   * exactly when the key is missing or its value is truthy, so the trailing
   * spread makes a falsy value other than `false` (say `0` or `null`) turn
   * saving off although `!== false` computed true; likewise for the fixed
   * code. The output directory is the given value whenever the key is
   * present, even a falsy one, and `'.'` only when it is missing.
   */
  lemma MergeSemantics(options: map<string, Value>)
    ensures Truthy(MergeOptions(options)["saveReport"])
      <==> "saveReport" !in options || Truthy(options["saveReport"])
    ensures Truthy(MergeOptions(options)["saveFixedCode"])
      <==> "saveFixedCode" !in options || Truthy(options["saveFixedCode"])
    ensures MergeOptions(options)["outputDir"] == if "outputDir" in options then options["outputDir"] else Str(".")
  {
  }

  // ---------------------------------------------------------------------
  // Code health (debugController.js:192-199)

  /** `Math.max(0, 100 - count * weight)`. */
  function SubScore(count: nat, weight: nat): (r: nat)
    ensures r <= 100
    ensures count == 0 ==> r == 100
  {
    if count * weight >= 100 then 0 else 100 - count * weight
  }

  /** `Math.round(s / n)` for a non-negative rational: halves round up. */
  function RoundDiv(s: nat, n: nat): nat
    requires n > 0
  {
    (2 * s + n) / (2 * n)
  }

  /** `RoundDiv` is the integer `r` with `r - 1/2 <= s/n < r + 1/2`, and no other is. */
  lemma RoundDivNearest(s: nat, n: nat, r: int)
    requires n > 0
    ensures r == RoundDiv(s, n) <==> 2 * n * r <= 2 * s + n < 2 * n * r + 2 * n
  {
    var q := RoundDiv(s, n);
    assert 2 * n * q <= 2 * s + n < 2 * n * q + 2 * n;
    if 2 * n * r <= 2 * s + n < 2 * n * r + 2 * n {
      if r < q {
        assert 2 * n * r + 2 * n <= 2 * n * q by {
          MultiplyMonotone(2 * n, r + 1, q);
        }
      } else if r > q {
        assert 2 * n * q + 2 * n <= 2 * n * r by {
          MultiplyMonotone(2 * n, q + 1, r);
        }
      }
    }
  }

  lemma MultiplyMonotone(k: nat, a: int, b: int)
    requires a <= b
    ensures k * a <= k * b
  {
  }

  /** A larger sum never rounds to a smaller mean. */
  lemma RoundDivMonotone(s: nat, t: nat, n: nat)
    requires n > 0 && s <= t
    ensures RoundDiv(s, n) <= RoundDiv(t, n)
  {
    var a, b := 2 * s + n, 2 * t + n;
    var d := 2 * n;
    assert a / d <= b / d by {
      DivMonotone(a, b, d);
    }
  }

  lemma DivMonotone(a: nat, b: nat, d: nat)
    requires d > 0 && a <= b
    ensures a / d <= b / d
  {
    var qa, qb := a / d, b / d;
    if qa > qb {
      assert d * qa <= a;
      assert b < d * qb + d;
      MultiplyMonotone(d, qb + 1, qa);
    }
  }

  /** The mean of values at most `m` rounds to at most `m`. */
  lemma RoundDivBound(s: nat, n: nat, m: nat)
    requires n > 0 && s <= m * n
    ensures RoundDiv(s, n) <= m
  {
    RoundDivMonotone(s, m * n, n);
    assert 2 * (m * n) + n == m * (2 * n) + n;
    DivPlus(m, 2 * n, n);
  }

  /** Division undoes multiplication when the remainder is below the divisor. */
  lemma DivPlus(q: nat, d: nat, r: nat)
    requires r < d
    ensures (q * d + r) / d == q
  {
    var x := q * d + r;
    var q', r' := x / d, x % d;
    assert x == d * q' + r' && 0 <= r' < d;
    if q' < q {
      MultiplyMonotone(d, q' + 1, q);
    } else if q' > q {
      MultiplyMonotone(d, q + 1, q');
    }
  }

  /** The rounded mean of the issue, warning and execution sub-scores. */
  function CodeHealth(issues: nat, warnings: nat, executionErrors: nat): nat {
    RoundDiv(SubScore(issues, 10) + SubScore(warnings, 5) + SubScore(executionErrors, 20), 3)
  }

  /** The score lies between 0 and 100 and is 100 for clean code. */
  lemma CodeHealthRange(issues: nat, warnings: nat, executionErrors: nat)
    ensures CodeHealth(issues, warnings, executionErrors) <= 100
    ensures CodeHealth(0, 0, 0) == 100
  {
    RoundDivBound(SubScore(issues, 10) + SubScore(warnings, 5) + SubScore(executionErrors, 20), 3, 100);
  }

  /** More issues, warnings or execution errors never raise the score. */
  lemma CodeHealthMonotone(i1: nat, w1: nat, e1: nat, i2: nat, w2: nat, e2: nat)
    requires i1 <= i2 && w1 <= w2 && e1 <= e2
    ensures CodeHealth(i2, w2, e2) <= CodeHealth(i1, w1, e1)
  {
    MultiplyMonotone(10, i1, i2);
    MultiplyMonotone(5, w1, w2);
    MultiplyMonotone(20, e1, e2);
    RoundDivMonotone(SubScore(i2, 10) + SubScore(w2, 5) + SubScore(e2, 20),
      SubScore(i1, 10) + SubScore(w1, 5) + SubScore(e1, 20), 3);
  }

  // ---------------------------------------------------------------------
  // Counting by type (debugController.js:201-211)

  /**
   * An object built by `grouped[type]++`: its keys in the order they were
   * first set, and the count under each.
   */
  datatype Tally = Tally(keys: seq<string>, counts: map<string, nat>)

  /** `item.type || 'unknown'`. */
  function TypeKey(t: Option<string>): string {
    if t.None? || t.value == "" then "unknown" else t.value
  }

  /** One more item under `key`. */
  function Bump(t: Tally, key: string): Tally {
    if key in t.counts then Tally(t.keys, t.counts[key := t.counts[key] + 1])
    else Tally(t.keys + [key], t.counts[key := 1])
  }

  /** The tally of a list of `type` fields, item by item. */
  function Tallied(types: seq<Option<string>>): Tally
    decreases |types|
  {
    if |types| == 0 then Tally([], map[])
    else Bump(Tallied(types[..|types| - 1]), TypeKey(types[|types| - 1]))
  }

  /** The number of items counted under `key`. */
  function Occurrences(types: seq<Option<string>>, key: string): nat
    decreases |types|
  {
    if |types| == 0 then 0
    else Occurrences(types[..|types| - 1], key) + if TypeKey(types[|types| - 1]) == key then 1 else 0
  }

  /** The sum of the counts, in key order. */
  function Total(keys: seq<string>, counts: map<string, nat>): nat
    requires forall k :: k in keys ==> k in counts
  {
    if |keys| == 0 then 0 else Total(keys[..|keys| - 1], counts) + counts[keys[|keys| - 1]]
  }

  /** Keys without repeats, exactly those of the counts. */
  ghost predicate WellFormed(t: Tally) {
    && (forall i, j :: 0 <= i < j < |t.keys| ==> t.keys[i] != t.keys[j])
    && (forall k :: k in t.keys <==> k in t.counts)
  }

  /**
   * Every item is counted under its key, a key is present exactly when some
   * item has it, and each key is listed once.
   */
  lemma {:induction false} TalliedCounts(types: seq<Option<string>>)
    ensures var t := Tallied(types);
      && WellFormed(t)
      && (forall k :: k in t.counts ==> t.counts[k] == Occurrences(types, k) > 0)
      && (forall k :: k !in t.counts ==> Occurrences(types, k) == 0)
    decreases |types|
  {
    if |types| > 0 {
      var n := |types| - 1;
      TalliedCounts(types[..n]);
    }
  }

  /** The counts add up to the number of items. */
  lemma {:induction false} TalliedTotal(types: seq<Option<string>>)
    ensures var t := Tallied(types);
      (forall k :: k in t.keys ==> k in t.counts) && Total(t.keys, t.counts) == |types|
    decreases |types|
  {
    TalliedCounts(types);
    if |types| > 0 {
      var n := |types| - 1;
      var prev := Tallied(types[..n]);
      var key := TypeKey(types[n]);
      TalliedTotal(types[..n]);
      TalliedCounts(types[..n]);
      if key in prev.counts {
        TotalUpdate(prev.keys, prev.counts, key, prev.counts[key] + 1);
      } else {
        TotalExtend(prev.keys, prev.counts, key);
      }
    }
  }

  /** Changing the count of a listed key changes the total by the difference. */
  lemma {:induction false} TotalUpdate(keys: seq<string>, counts: map<string, nat>, key: string, v: nat)
    requires forall k :: k in keys ==> k in counts
    requires forall i, j :: 0 <= i < j < |keys| ==> keys[i] != keys[j]
    requires key in keys
    ensures Total(keys, counts[key := v]) + counts[key] == Total(keys, counts) + v
    decreases |keys|
  {
    var n := |keys| - 1;
    if keys[n] == key {
      assert key !in keys[..n];
      TotalOther(keys[..n], counts, key, v);
    } else {
      assert key in keys[..n];
      TotalUpdate(keys[..n], counts, key, v);
    }
  }

  /** Changing the count of an unlisted key leaves the total alone. */
  lemma {:induction false} TotalOther(keys: seq<string>, counts: map<string, nat>, key: string, v: nat)
    requires forall k :: k in keys ==> k in counts
    requires key !in keys
    ensures Total(keys, counts[key := v]) == Total(keys, counts)
    decreases |keys|
  {
    if |keys| > 0 {
      TotalOther(keys[..|keys| - 1], counts, key, v);
    }
  }

  /** A new key with count one adds one to the total. */
  lemma TotalExtend(keys: seq<string>, counts: map<string, nat>, key: string)
    requires forall k :: k in keys ==> k in counts
    requires key !in keys
    ensures Total(keys + [key], counts[key := 1]) == Total(keys, counts) + 1
  {
    assert (keys + [key])[..|keys|] == keys;
    TotalOther(keys, counts, key, 1);
  }

  /** The `type` field of a finding. */
  function FindingType(f: Finding): string {
    f.Type()
  }

  /** The `type` field of a fix record. */
  function RecordType(r: AF.FixRecord): string {
    r.Type()
  }

  /** The `type` field of each item, in order, as `_groupByType` reads it. */
  function TypeFields<T>(items: seq<T>, typeOf: T -> string): seq<Option<string>> {
    seq(|items|, i requires 0 <= i < |items| => Some(typeOf(items[i])))
  }

  /** A tally without repeated keys whose counts add up to `n`. */
  ghost predicate CountsUpTo(t: Tally, n: nat) {
    WellFormed(t) && Total(t.keys, t.counts) == n
  }

  // ---------------------------------------------------------------------
  // The per-file summary (debugController.js:153-167)

  datatype Summary = Summary(
    totalIssues: nat,
    totalWarnings: nat,
    executionErrors: nat,
    fixesApplied: nat,
    suggestions: nat,
    codeHealth: nat,
    issuesByType: Tally,
    warningsByType: Tally,
    fixesByType: Tally)

  /** The summary of one file's analysis, runtime error count and fixes. */
  function SummaryOf(analysis: CA.Analysis, executionErrors: nat, fixResults: AF.FixResult): Summary {
    Summary(
      |analysis.issues|, |analysis.warnings|, executionErrors,
      |fixResults.fixesApplied|, |fixResults.suggestions|,
      CodeHealth(|analysis.issues|, |analysis.warnings|, executionErrors),
      Tallied(TypeFields(analysis.issues, FindingType)),
      Tallied(TypeFields(analysis.warnings, FindingType)),
      Tallied(TypeFields(fixResults.fixesApplied, RecordType)))
  }

  /**
   * The score of a summary lies in 0..100, and each by-type table counts
   * exactly the items of its list: its counts add up to the list's total.
   */
  lemma SummaryConsistent(analysis: CA.Analysis, executionErrors: nat, fixResults: AF.FixResult)
    ensures var s := SummaryOf(analysis, executionErrors, fixResults);
      && s.codeHealth <= 100
      && CountsUpTo(s.issuesByType, s.totalIssues)
      && CountsUpTo(s.warningsByType, s.totalWarnings)
      && CountsUpTo(s.fixesByType, s.fixesApplied)
  {
    CodeHealthRange(|analysis.issues|, |analysis.warnings|, executionErrors);
    TalliedCounts(TypeFields(analysis.issues, FindingType));
    TalliedTotal(TypeFields(analysis.issues, FindingType));
    TalliedCounts(TypeFields(analysis.warnings, FindingType));
    TalliedTotal(TypeFields(analysis.warnings, FindingType));
    TalliedCounts(TypeFields(fixResults.fixesApplied, RecordType));
    TalliedTotal(TypeFields(fixResults.fixesApplied, RecordType));
  }

  /**
   * A by-type table of findings (the issues or the warnings of a summary)
   * lists exactly the types present, each with the number of findings
   * `findings.filter(f => f.type === t)` keeps, the count the fixer uses.
   */
  lemma FindingsByType(fs: seq<Finding>, t: string)
    ensures var tally := Tallied(TypeFields(fs, FindingType));
      (t in tally.counts <==> exists i :: 0 <= i < |fs| && fs[i].Type() == t)
      && (t in tally.counts ==> tally.counts[t] == AF.CountOf(fs, t))
  {
    var types := TypeFields(fs, FindingType);
    TalliedCounts(types);
    forall i | 0 <= i < |types|
      ensures types[i].Some? && types[i].value != "" && types[i].value == fs[i].Type()
    {
      assert types[i] == Some(FindingType(fs[i]));
    }
    OccurrencesPositive(types, t);
    OccurrencesOfType(fs, t);
  }

  /** Counting a finding type in the `type` fields is filtering by that type. */
  lemma {:induction false} OccurrencesOfType(fs: seq<Finding>, t: string)
    ensures Occurrences(TypeFields(fs, FindingType), t) == AF.CountOf(fs, t)
    decreases |fs|
  {
    if |fs| > 0 {
      var n := |fs| - 1;
      var types := TypeFields(fs, FindingType);
      assert types[..n] == TypeFields(fs[..n], FindingType);
      OccurrencesOfType(fs[..n], t);
      assert types[n] == Some(fs[n].Type());
      KeyOfFinding(fs[n]);
      CountOfLast(fs, t);
    }
  }

  /** Filtering a list counts its last element after the others. */
  lemma CountOfLast(fs: seq<Finding>, t: string)
    requires |fs| > 0
    ensures AF.CountOf(fs, t) == AF.CountOf(fs[..|fs| - 1], t) + if fs[|fs| - 1].Type() == t then 1 else 0
  {
    var n := |fs| - 1;
    assert fs == fs[..n] + [fs[n]];
    OfTypeAppend(fs[..n], [fs[n]], t);
    assert OfType([fs[n]], t) == if fs[n].Type() == t then [fs[n]] else [];
  }

  /** A finding is counted under its own type: none is empty or `'unknown'`. */
  lemma KeyOfFinding(f: Finding)
    ensures TypeKey(Some(f.Type())) == f.Type()
  {
  }

  /** The same for the table of fixes. */
  lemma FixesByType(rs: seq<AF.FixRecord>, t: string)
    ensures var tally := Tallied(TypeFields(rs, RecordType));
      (t in tally.counts <==> exists i :: 0 <= i < |rs| && rs[i].Type() == t)
      && (t in tally.counts ==> tally.counts[t] == Occurrences(TypeFields(rs, RecordType), t))
  {
    var types := TypeFields(rs, RecordType);
    TalliedCounts(types);
    forall i | 0 <= i < |types|
      ensures types[i].Some? && types[i].value != "" && types[i].value == rs[i].Type()
    {
      assert types[i] == Some(RecordType(rs[i]));
    }
    OccurrencesPositive(types, t);
  }

  /** A key occurs exactly when some item carries it (every finding type is non-empty). */
  lemma {:induction false} OccurrencesPositive(types: seq<Option<string>>, key: string)
    requires forall i :: 0 <= i < |types| ==> types[i].Some? && types[i].value != ""
    ensures Occurrences(types, key) > 0 <==> exists i :: 0 <= i < |types| && types[i].value == key
    decreases |types|
  {
    if |types| > 0 {
      var n := |types| - 1;
      OccurrencesPositive(types[..n], key);
      if Occurrences(types[..n], key) > 0 {
        var i :| 0 <= i < n && types[..n][i].value == key;
        assert types[i].value == key;
      }
      if exists i :: 0 <= i < |types| && types[i].value == key {
        var i :| 0 <= i < |types| && types[i].value == key;
        if i < n {
          assert types[..n][i].value == key;
        }
      }
    }
  }

  // ---------------------------------------------------------------------
  // The single-file pipeline (debugController.js:31-82)

  /** What reading a path and running the simulator on its text yield. */
  datatype FileOutcome =
    | Readable(text: string, executionErrors: nat)
    | Unreadable(message: string)

  /**
   * The file system together with the runtime simulator: for each path, the
   * text and its execution-error count, or the error reading it throws.
   */
  type FileSystem = map<string, FileOutcome>

  /** `fs.readFile` (and the simulator) on one path; a missing path is `ENOENT`. */
  function Read(fs: FileSystem, filePath: string): (outcome: FileOutcome)
    ensures filePath !in fs ==> outcome.Unreadable? && outcome.message != ""
  {
    if filePath in fs then fs[filePath]
    else Unreadable("ENOENT: no such file or directory, open '" + filePath + "'")
  }

  /** The report of one file (its timestamp is not modelled). */
  datatype DebugReport = DebugReport(
    fileName: string,
    filePath: string,
    analysis: CA.Analysis,
    executionErrors: nat,
    fixResults: AF.FixResult,
    summary: Summary)

  /** The message of the `TypeError` that `path.join` throws for a non-string directory. */
  const PathTypeError := "The \"path\" argument must be of type string"

  /** The part of a POSIX path without its trailing slashes. */
  function StripTrailingSlashes(p: string): (r: string)
    ensures r <= p && (r == "" || r[|r| - 1] != '/')
    decreases |p|
  {
    if |p| > 0 && p[|p| - 1] == '/' then StripTrailingSlashes(p[..|p| - 1]) else p
  }

  /** The characters after the last slash. */
  function LastSegment(p: string): (r: string)
    ensures '/' !in r
    decreases |p|
  {
    if |p| == 0 || p[|p| - 1] == '/' then "" else LastSegment(p[..|p| - 1]) + [p[|p| - 1]]
  }

  /** `path.basename` for POSIX paths. */
  function BaseName(p: string): (r: string)
    ensures '/' !in r
  {
    LastSegment(StripTrailingSlashes(p))
  }

  /** The base name of `dir/name` is `name`, and a bare name is its own base name. */
  lemma BaseNameJoin(dir: string, name: string)
    requires name != "" && '/' !in name
    ensures BaseName(dir + "/" + name) == name
    ensures BaseName(name) == name
  {
    assert forall k :: 0 <= k < |name| ==> name[k] != '/' by {
      forall k | 0 <= k < |name| ensures name[k] != '/' {
        assert name[k] in name;
      }
    }
    LastSegmentAfter(dir + "/", name);
    LastSegmentAfter("", name);
    assert "" + name == name;
    var whole := dir + "/" + name;
    assert whole[|whole| - 1] == name[|name| - 1];
  }

  lemma {:induction false} LastSegmentAfter(prefix: string, name: string)
    requires prefix == "" || prefix[|prefix| - 1] == '/'
    requires forall k :: 0 <= k < |name| ==> name[k] != '/'
    ensures LastSegment(prefix + name) == name
    decreases |name|
  {
    if |name| == 0 {
      assert prefix + name == prefix;
    } else {
      var n := |name| - 1;
      var whole := prefix + name;
      assert whole[|whole| - 1] == name[n];
      assert whole[..|whole| - 1] == prefix + name[..n];
      LastSegmentAfter(prefix, name[..n]);
      assert name[..n] + [name[n]] == name;
    }
  }

  /** Whether either save is requested: each joins the output directory into a path. */
  predicate SavesFiles(options: map<string, Value>) {
    Truthy(Lookup(options, "saveReport")) || Truthy(Lookup(options, "saveFixedCode"))
  }

  /** Whether `path.join` rejects the output directory. */
  predicate BadOutputDir(options: map<string, Value>) {
    !Lookup(options, "outputDir").Str?
  }

  /** The report the pipeline builds for a readable file. */
  function ReportOf(filePath: string, text: string, executionErrors: nat): DebugReport {
    var fileName := BaseName(filePath);
    var analysis := CA.Analysis(fileName, CA.Issues(text), CA.Warnings(text));
    var fixResults := AF.FixResult(
      AF.FixedCode(text, analysis.issues, analysis.warnings),
      AF.FixRecords(text, analysis.issues, analysis.warnings),
      AF.Suggestions(analysis.issues, analysis.warnings));
    DebugReport(fileName, filePath, analysis, executionErrors, fixResults,
      SummaryOf(analysis, executionErrors, fixResults))
  }

  /**
   * What `debug` returns or throws: the read error, the `TypeError` of a
   * save into a non-string directory, or the report.
   */
  function DebugOutcome(options: map<string, Value>, filePath: string, outcome: FileOutcome): Result<DebugReport, string> {
    match outcome
    case Unreadable(message) => Failure(message)
    case Readable(text, executionErrors) =>
      Saved(options, ReportOf(filePath, text, executionErrors))
  }

  /** The two saves after the report is stored: each joins the output directory into a path. */
  function Saved(options: map<string, Value>, report: DebugReport): Result<DebugReport, string> {
    if SavesFiles(options) && BadOutputDir(options) then Failure(PathTypeError) else Success(report)
  }

  /** The stored report after `debug`: replaced as soon as the file was read. */
  function NextReport(filePath: string, outcome: FileOutcome, previous: Option<DebugReport>): Option<DebugReport> {
    match outcome
    case Unreadable(_) => previous
    case Readable(text, executionErrors) => Some(ReportOf(filePath, text, executionErrors))
  }

  /**
   * A report is named after the file, analyses its text, and hands the
   * analyser's findings and the original text to the fixer; its summary is
   * consistent with both.
   */
  lemma ReportFacts(filePath: string, text: string, executionErrors: nat)
    ensures var r := ReportOf(filePath, text, executionErrors);
      && r.fileName == BaseName(filePath) && r.analysis.fileName == r.fileName
      && r.analysis.issues == CA.Issues(text) && r.analysis.warnings == CA.Warnings(text)
      && r.fixResults.fixedCode == AF.FixedCode(text, r.analysis.issues, r.analysis.warnings)
      && r.summary.totalIssues == |r.analysis.issues|
      && r.summary.fixesApplied == |r.fixResults.fixesApplied|
      && r.summary.codeHealth <= 100
      && CountsUpTo(r.summary.issuesByType, r.summary.totalIssues)
  {
    var r := ReportOf(filePath, text, executionErrors);
    SummaryConsistent(r.analysis, executionErrors, r.fixResults);
  }

  /**
   * The runtime result feeds only the execution-error count and the score:
   * analysis, fixes and the rest of the summary do not depend on it, and
   * more execution errors never raise the score.
   */
  lemma RuntimeOnlyScores(filePath: string, text: string, e1: nat, e2: nat)
    requires e1 <= e2
    ensures var r1, r2 := ReportOf(filePath, text, e1), ReportOf(filePath, text, e2);
      && r1.analysis == r2.analysis && r1.fixResults == r2.fixResults
      && r1.summary.(executionErrors := e2, codeHealth := r2.summary.codeHealth) == r2.summary
      && r2.summary.codeHealth <= r1.summary.codeHealth
  {
    var r1 := ReportOf(filePath, text, e1);
    CodeHealthMonotone(|r1.analysis.issues|, |r1.analysis.warnings|, e1,
      |r1.analysis.issues|, |r1.analysis.warnings|, e2);
  }

  /** `debug` fails exactly when the read fails or a save targets a non-string directory. */
  lemma DebugFailsWhen(options: map<string, Value>, filePath: string, outcome: FileOutcome)
    ensures DebugOutcome(options, filePath, outcome).Failure?
      <==> outcome.Unreadable? || (SavesFiles(options) && BadOutputDir(options))
    ensures outcome.Unreadable? ==> DebugOutcome(options, filePath, outcome) == Failure(outcome.message)
  {
  }

  /** With the default options no save can fail, so a readable file always yields its report. */
  lemma DefaultOptionsSucceed(filePath: string, text: string, executionErrors: nat)
    ensures DebugOutcome(MergeOptions(map[]), filePath, Readable(text, executionErrors))
      == Success(ReportOf(filePath, text, executionErrors))
  {
    MergeDefaults();
  }

  // ---------------------------------------------------------------------
  // Several files (debugController.js:89-124, 169-190)

  /** One element of `results`: a report, or the error object of a file that threw. */
  datatype Entry =
    | Completed(report: DebugReport)
    | Errored(filePath: string, error: string)

  /** The entry `debugMultiple` records for one path. */
  function EntryOf(options: map<string, Value>, filePath: string, outcome: FileOutcome): Entry {
    match DebugOutcome(options, filePath, outcome)
    case Success(report) => Completed(report)
    case Failure(message) => Errored(filePath, message)
  }

  /** The entries of the paths, in order. */
  function Entries(options: map<string, Value>, filePaths: seq<string>, fs: FileSystem): (es: seq<Entry>)
    ensures |es| == |filePaths|
    decreases |filePaths|
  {
    if |filePaths| == 0 then []
    else
      var n := |filePaths| - 1;
      Entries(options, filePaths[..n], fs) + [EntryOf(options, filePaths[n], Read(fs, filePaths[n]))]
  }

  /** Entry `i` is the outcome of debugging path `i` on its own. */
  lemma {:induction false} EntriesPointwise(options: map<string, Value>, filePaths: seq<string>, fs: FileSystem, i: nat)
    requires i < |filePaths|
    ensures Entries(options, filePaths, fs)[i] == EntryOf(options, filePaths[i], Read(fs, filePaths[i]))
    decreases |filePaths|
  {
    var n := |filePaths| - 1;
    if i < n {
      EntriesPointwise(options, filePaths[..n], fs, i);
    }
  }

  /** How the entries, the stored report and readability grow by one path. */
  lemma LoopStep(options: map<string, Value>, filePaths: seq<string>, fs: FileSystem, i: nat, previous: Option<DebugReport>)
    requires i < |filePaths|
    ensures Entries(options, filePaths[..i + 1], fs)
      == Entries(options, filePaths[..i], fs) + [EntryOf(options, filePaths[i], Read(fs, filePaths[i]))]
    ensures LastReport(filePaths[..i + 1], fs, previous)
      == NextReport(filePaths[i], Read(fs, filePaths[i]), LastReport(filePaths[..i], fs, previous))
    ensures AnyReadable(filePaths[..i + 1], fs) <==> AnyReadable(filePaths[..i], fs) || Read(fs, filePaths[i]).Readable?
  {
    assert filePaths[..i + 1][..i] == filePaths[..i];
  }

  /** The stored report after the loop: that of the last readable path. */
  function LastReport(filePaths: seq<string>, fs: FileSystem, previous: Option<DebugReport>): Option<DebugReport>
    decreases |filePaths|
  {
    if |filePaths| == 0 then previous
    else
      var n := |filePaths| - 1;
      NextReport(filePaths[n], Read(fs, filePaths[n]), LastReport(filePaths[..n], fs, previous))
  }

  /** Whether some path could be read. */
  predicate AnyReadable(filePaths: seq<string>, fs: FileSystem)
    decreases |filePaths|
  {
    |filePaths| > 0 && (AnyReadable(filePaths[..|filePaths| - 1], fs) || Read(fs, filePaths[|filePaths| - 1]).Readable?)
  }

  /** `!r.error`: an entry without an error message counts as successful. */
  predicate IsFailed(e: Entry) {
    e.Errored? && e.error != ""
  }

  function Successful(es: seq<Entry>): seq<Entry>
    decreases |es|
  {
    if |es| == 0 then []
    else Successful(es[..|es| - 1]) + if IsFailed(es[|es| - 1]) then [] else [es[|es| - 1]]
  }

  function Failed(es: seq<Entry>): seq<Entry>
    decreases |es|
  {
    if |es| == 0 then []
    else Failed(es[..|es| - 1]) + if IsFailed(es[|es| - 1]) then [es[|es| - 1]] else []
  }

  /** The successful entries are those that did not fail, the failed ones the others. */
  lemma {:induction false} SplitMembers(es: seq<Entry>)
    ensures forall e :: e in Successful(es) <==> e in es && !IsFailed(e)
    ensures forall e :: e in Failed(es) <==> e in es && IsFailed(e)
    decreases |es|
  {
    if |es| > 0 {
      var n := |es| - 1;
      SplitMembers(es[..n]);
      assert es == es[..n] + [es[n]];
    }
  }

  /** Every file lands in exactly one of the two lists. */
  lemma {:induction false} SuccessfulFailedSplit(es: seq<Entry>)
    ensures |Successful(es)| + |Failed(es)| == |es|
    decreases |es|
  {
    if |es| > 0 {
      SuccessfulFailedSplit(es[..|es| - 1]);
    }
  }

  /** The aggregate of several files. */
  datatype MultiSummary = MultiSummary(
    totalFiles: nat,
    successful: nat,
    failed: nat,
    totalIssues: nat,
    totalWarnings: nat,
    totalExecutionErrors: nat,
    totalFixes: nat,
    codeHealth: nat)

  datatype MultiFileReport = MultiFileReport(files: seq<Entry>, summary: MultiSummary)

  /** The message of reading `analysis` from an error entry that counts as successful. */
  const UndefinedAnalysisError := "Cannot read properties of undefined (reading 'issues')"

  /** The successful entries' reports, or `None` when one of them has no report. */
  function Reports(es: seq<Entry>): (r: Option<seq<DebugReport>>)
    ensures r.Some? ==> |r.value| == |es|
    decreases |es|
  {
    if |es| == 0 then Some([])
    else
      var last := es[|es| - 1];
      if last.Errored? then None
      else
        var rs :- Reports(es[..|es| - 1]);
        Some(rs + [last.report])
  }

  /** The four running totals and the health sum over a list of reports. */
  datatype Totals = Totals(issues: nat, warnings: nat, executionErrors: nat, fixes: nat, health: nat)

  function TotalsOf(rs: seq<DebugReport>): Totals
    decreases |rs|
  {
    if |rs| == 0 then Totals(0, 0, 0, 0, 0)
    else
      var t := TotalsOf(rs[..|rs| - 1]);
      var r := rs[|rs| - 1];
      Totals(t.issues + |r.analysis.issues|, t.warnings + |r.analysis.warnings|,
        t.executionErrors + r.executionErrors, t.fixes + |r.fixResults.fixesApplied|,
        t.health + r.summary.codeHealth)
  }

  /**
   * `_generateMultiFileSummary`: totals over the successful entries, and the
   * rounded mean of their scores (0 when none succeeded).
   */
  function MultiFileSummary(es: seq<Entry>): Result<MultiSummary, string> {
    var successful := Successful(es);
    match Reports(successful)
    case None => Failure(UndefinedAnalysisError)
    case Some(rs) =>
      var t := TotalsOf(rs);
      Success(MultiSummary(|es|, |successful|, |Failed(es)|,
        t.issues, t.warnings, t.executionErrors, t.fixes,
        if |successful| > 0 then RoundDiv(t.health, |successful|) else 0))
  }

  /** The summary exists exactly when every error entry carries a message. */
  lemma MultiSummaryDefined(es: seq<Entry>)
    ensures MultiFileSummary(es).Success? <==> forall e :: e in es && e.Errored? ==> e.error != ""
  {
    ReportsDefined(Successful(es));
    SplitMembers(es);
  }

  lemma {:induction false} ReportsDefined(es: seq<Entry>)
    ensures Reports(es).Some? <==> forall e :: e in es ==> e.Completed?
    decreases |es|
  {
    if |es| > 0 {
      var n := |es| - 1;
      var front := es[..n];
      ReportsDefined(front);
      if es[n].Errored? {
        assert Reports(es).None?;
        assert es[n] in es;
      } else if Reports(es).Some? {
        assert Reports(front).Some?;
        forall e | e in es ensures e.Completed? {
          if e != es[n] {
            var k :| 0 <= k < |es| && es[k] == e;
            assert front[k] == e;
          }
        }
      } else {
        assert Reports(front).None?;
        var e :| e in front && !e.Completed?;
        assert e in es;
      }
    }
  }

  /** Every file is counted once: as successful or as failed. */
  lemma MultiSummaryCounts(es: seq<Entry>)
    requires MultiFileSummary(es).Success?
    ensures var s := MultiFileSummary(es).value;
      s.totalFiles == |es| && s.successful + s.failed == s.totalFiles
  {
    SuccessfulFailedSplit(es);
  }

  /** The mean of scores that are each at most 100 is at most 100. */
  lemma MultiHealthBound(es: seq<Entry>)
    requires MultiFileSummary(es).Success?
    requires forall e :: e in es && e.Completed? ==> e.report.summary.codeHealth <= 100
    ensures MultiFileSummary(es).value.codeHealth <= 100
    ensures Successful(es) == [] ==> MultiFileSummary(es).value.codeHealth == 0
  {
    var successful := Successful(es);
    var rs := Reports(successful).value;
    if |successful| > 0 {
      ReportsFrom(successful);
      SplitMembers(es);
      HealthSumBound(rs);
      RoundDivBound(TotalsOf(rs).health, |successful|, 100);
    }
  }

  /** Each report comes from an entry of the list. */
  lemma {:induction false} ReportsFrom(es: seq<Entry>)
    requires Reports(es).Some?
    ensures forall r :: r in Reports(es).value ==> Completed(r) in es
    decreases |es|
  {
    if |es| > 0 {
      var n := |es| - 1;
      ReportsFrom(es[..n]);
    }
  }

  lemma {:induction false} HealthSumBound(rs: seq<DebugReport>)
    requires forall r :: r in rs ==> r.summary.codeHealth <= 100
    ensures TotalsOf(rs).health <= 100 * |rs|
    decreases |rs|
  {
    if |rs| > 0 {
      var n := |rs| - 1;
      assert rs[n] in rs;
      HealthSumBound(rs[..n]);
    }
  }

  /** A failed file adds to the file and failure counts and to nothing else. */
  lemma AppendFailed(es: seq<Entry>, e: Entry)
    requires MultiFileSummary(es).Success? && IsFailed(e)
    ensures MultiFileSummary(es + [e]).Success?
    ensures var s, s' := MultiFileSummary(es).value, MultiFileSummary(es + [e]).value;
      s' == s.(totalFiles := s.totalFiles + 1, failed := s.failed + 1)
  {
    var es' := es + [e];
    assert es'[..|es|] == es;
    assert Successful(es') == Successful(es);
    assert Failed(es') == Failed(es) + [e];
  }

  /** A completed file adds its counts to the totals. */
  lemma AppendCompleted(es: seq<Entry>, r: DebugReport)
    requires MultiFileSummary(es).Success?
    ensures MultiFileSummary(es + [Completed(r)]).Success?
    ensures var s, s' := MultiFileSummary(es).value, MultiFileSummary(es + [Completed(r)]).value;
      && s'.totalFiles == s.totalFiles + 1 && s'.successful == s.successful + 1 && s'.failed == s.failed
      && s'.totalIssues == s.totalIssues + |r.analysis.issues|
      && s'.totalWarnings == s.totalWarnings + |r.analysis.warnings|
      && s'.totalExecutionErrors == s.totalExecutionErrors + r.executionErrors
      && s'.totalFixes == s.totalFixes + |r.fixResults.fixesApplied|
  {
    var es' := es + [Completed(r)];
    assert es'[..|es|] == es;
    var rs := Reports(Successful(es)).value;
    assert Successful(es') == Successful(es) + [Completed(r)];
    assert (Successful(es) + [Completed(r)])[..|Successful(es)|] == Successful(es);
    assert Reports(Successful(es')) == Some(rs + [r]);
    assert (rs + [r])[..|rs|] == rs;
  }

  /** What `debugMultiple` returns or throws. */
  function MultiOutcome(options: map<string, Value>, es: seq<Entry>): Result<MultiFileReport, string> {
    match MultiFileSummary(es)
    case Failure(message) => Failure(message)
    case Success(summary) =>
      if Truthy(Lookup(options, "saveReport")) && BadOutputDir(options) then Failure(PathTypeError)
      else Success(MultiFileReport(es, summary))
  }

  /**
   * Over real paths the multi-file summary always exists when every read
   * error has a message, and its score is at most 100.
   */
  lemma MultiOutcomeHealth(options: map<string, Value>, filePaths: seq<string>, fs: FileSystem)
    requires forall p :: p in filePaths && Read(fs, p).Unreadable? ==> Read(fs, p).message != ""
    ensures var es := Entries(options, filePaths, fs);
      MultiFileSummary(es).Success? && MultiFileSummary(es).value.codeHealth <= 100
  {
    var es := Entries(options, filePaths, fs);
    forall e | e in es
      ensures (e.Errored? ==> e.error != "") && (e.Completed? ==> e.report.summary.codeHealth <= 100)
    {
      var i :| 0 <= i < |es| && es[i] == e;
      EntriesPointwise(options, filePaths, fs, i);
      EntryWellFormed(options, filePaths[i], Read(fs, filePaths[i]));
    }
    MultiSummaryDefined(es);
    MultiHealthBound(es);
  }

  /** An entry of a read error keeps its message; a report scores at most 100. */
  lemma EntryWellFormed(options: map<string, Value>, filePath: string, outcome: FileOutcome)
    requires outcome.Unreadable? ==> outcome.message != ""
    ensures var e := EntryOf(options, filePath, outcome);
      (e.Errored? ==> e.error != "") && (e.Completed? ==> e.report.summary.codeHealth <= 100)
  {
    if outcome.Readable? {
      ReportFacts(filePath, outcome.text, outcome.executionErrors);
    }
  }

  // ---------------------------------------------------------------------
  // The controller object

  class DebugController {
    const analyzer: CA.CodeAnalyzer
    const autoFixer: AF.AutoFixer
    var options: map<string, Value>
    /** The last report built; `None` stands for the initial empty object. */
    var debugReport: Option<DebugReport>

    constructor (opts: map<string, Value>)
      ensures options == MergeOptions(opts) && debugReport == None
      ensures fresh(analyzer) && fresh(autoFixer)
      ensures analyzer.issues == [] && analyzer.warnings == []
      ensures autoFixer.fixesApplied == [] && autoFixer.suggestions == []
    {
      analyzer := new CA.CodeAnalyzer();
      autoFixer := new AF.AutoFixer();
      options := MergeOptions(opts);
      debugReport := None;
    }

    /** The analyser and the fixer hold the records of the stored report. */
    ghost predicate Mirrors(report: Option<DebugReport>)
      reads analyzer, autoFixer
    {
      report.Some? ==>
        && analyzer.issues == report.value.analysis.issues
        && analyzer.warnings == report.value.analysis.warnings
        && autoFixer.fixesApplied == report.value.fixResults.fixesApplied
        && autoFixer.suggestions == report.value.fixResults.suggestions
    }

    /** `_groupByType` over the items' `type` fields. */
    method GroupByType(types: seq<Option<string>>) returns (grouped: Tally)
      ensures grouped == Tallied(types)
    {
      grouped := Tally([], map[]);
      for i := 0 to |types|
        invariant grouped == Tallied(types[..i])
      {
        assert types[..i + 1][..i] == types[..i];
        var key := TypeKey(types[i]);
        if key !in grouped.counts {
          grouped := Tally(grouped.keys + [key], grouped.counts[key := 0]);
        }
        grouped := Tally(grouped.keys, grouped.counts[key := grouped.counts[key] + 1]);
      }
      assert types[..|types|] == types;
    }

    /** `_generateSummary`. */
    method GenerateSummary(analysis: CA.Analysis, executionErrors: nat, fixResults: AF.FixResult) returns (summary: Summary)
      ensures summary == SummaryOf(analysis, executionErrors, fixResults)
    {
      var issuesByType := GroupByType(TypeFields(analysis.issues, FindingType));
      var warningsByType := GroupByType(TypeFields(analysis.warnings, FindingType));
      var fixesByType := GroupByType(TypeFields(fixResults.fixesApplied, RecordType));
      summary := Summary(
        |analysis.issues|, |analysis.warnings|, executionErrors,
        |fixResults.fixesApplied|, |fixResults.suggestions|,
        CodeHealth(|analysis.issues|, |analysis.warnings|, executionErrors),
        issuesByType, warningsByType, fixesByType);
    }

    /** The three steps of `debug` on a file's text: analyse, fix, summarise. */
    method Pipeline(filePath: string, sourceCode: string, executionErrors: nat) returns (report: DebugReport)
      modifies analyzer, autoFixer
      ensures report == ReportOf(filePath, sourceCode, executionErrors)
      ensures Mirrors(Some(report))
    {
      var fileName := BaseName(filePath);
      var analysis := analyzer.Analyze(sourceCode, fileName);
      var fixResults := autoFixer.Fix(sourceCode, analysis.issues, analysis.warnings);
      var summary := GenerateSummary(analysis, executionErrors, fixResults);
      report := DebugReport(fileName, filePath, analysis, executionErrors, fixResults, summary);
    }

    /** `this.debugReport = {...}`. */
    method Store(report: DebugReport)
      modifies this
      ensures options == old(options) && debugReport == Some(report)
    {
      debugReport := Some(report);
    }

    /**
     * `debug`: read, analyse, fix, summarise and store the report, then
     * join the output directory into the save paths.
     */
    method Debug(filePath: string, fs: FileSystem) returns (r: Result<DebugReport, string>)
      modifies this, analyzer, autoFixer
      ensures options == old(options)
      ensures r == DebugOutcome(options, filePath, Read(fs, filePath))
      ensures debugReport == NextReport(filePath, Read(fs, filePath), old(debugReport))
      ensures Read(fs, filePath).Readable? ==> Mirrors(debugReport)
      ensures Read(fs, filePath).Unreadable? ==> unchanged(analyzer, autoFixer)
    {
      var outcome := Read(fs, filePath);
      if outcome.Unreadable? {
        r := Failure(outcome.message);
        return;
      }
      var report := Pipeline(filePath, outcome.text, outcome.executionErrors);
      Store(report);
      r := Save(report);
    }

    /** The `saveReport` and `saveFixedCode` steps; the writes themselves are not modelled. */
    method Save(report: DebugReport) returns (r: Result<DebugReport, string>)
      ensures r == Saved(options, report)
    {
      r := Success(report);
      if Truthy(Lookup(options, "saveReport")) && BadOutputDir(options) {
        r := Failure(PathTypeError);
      } else if Truthy(Lookup(options, "saveFixedCode")) && BadOutputDir(options) {
        r := Failure(PathTypeError);
      }
    }

    /** One iteration of `debugMultiple`: the report, or the caught error as an entry. */
    method DebugEntry(filePath: string, fs: FileSystem) returns (entry: Entry)
      modifies this, analyzer, autoFixer
      ensures options == old(options)
      ensures entry == EntryOf(options, filePath, Read(fs, filePath))
      ensures debugReport == NextReport(filePath, Read(fs, filePath), old(debugReport))
      ensures Read(fs, filePath).Readable? ==> Mirrors(debugReport)
      ensures Read(fs, filePath).Unreadable? ==> unchanged(analyzer, autoFixer)
    {
      var outcome := Debug(filePath, fs);
      match outcome
      case Success(report) =>
        entry := Completed(report);
      case Failure(message) =>
        entry := Errored(filePath, message);
    }

    /**
     * `debugMultiple`: debug each path in turn, recording a report or the
     * error message, then summarise and join the report path.
     */
    method DebugMultiple(filePaths: seq<string>, fs: FileSystem) returns (r: Result<MultiFileReport, string>)
      modifies this, analyzer, autoFixer
      ensures options == old(options)
      ensures r == MultiOutcome(options, Entries(options, filePaths, fs))
      ensures debugReport == LastReport(filePaths, fs, old(debugReport))
      ensures AnyReadable(filePaths, fs) ==> Mirrors(debugReport)
      ensures !AnyReadable(filePaths, fs) ==> unchanged(analyzer, autoFixer)
    {
      var results := DebugEach(filePaths, fs);
      r := Summarise(results);
    }

    /** The `for … of` loop of `debugMultiple`. */
    method DebugEach(filePaths: seq<string>, fs: FileSystem) returns (results: seq<Entry>)
      modifies this, analyzer, autoFixer
      ensures options == old(options)
      ensures results == Entries(options, filePaths, fs)
      ensures debugReport == LastReport(filePaths, fs, old(debugReport))
      ensures AnyReadable(filePaths, fs) ==> Mirrors(debugReport)
      ensures !AnyReadable(filePaths, fs) ==> unchanged(analyzer, autoFixer)
    {
      results := [];
      for i := 0 to |filePaths|
        invariant options == old(options)
        invariant results == Entries(options, filePaths[..i], fs)
        invariant debugReport == LastReport(filePaths[..i], fs, old(debugReport))
        invariant AnyReadable(filePaths[..i], fs) ==> Mirrors(debugReport)
        invariant !AnyReadable(filePaths[..i], fs) ==> unchanged(analyzer, autoFixer)
      {
        var entry := DebugEntry(filePaths[i], fs);
        results := results + [entry];
        LoopStep(options, filePaths, fs, i, old(debugReport));
      }
      assert filePaths[..|filePaths|] == filePaths;
    }

    /** The multi-file report and the join of its save path. */
    method Summarise(results: seq<Entry>) returns (r: Result<MultiFileReport, string>)
      ensures r == MultiOutcome(options, results)
    {
      var summary := MultiFileSummary(results);
      match summary
      case Failure(message) =>
        r := Failure(message);
      case Success(s) =>
        r := Success(MultiFileReport(results, s));
        if Truthy(Lookup(options, "saveReport")) && BadOutputDir(options) {
          r := Failure(PathTypeError);
        }
    }
  }
}
