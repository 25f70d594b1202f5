/**
 * The command-line entry point: the help check, the argument loop, the
 * checks on the file paths, and the choice between debugging one file and
 * several. Printing and the exit itself are outcomes here; which paths
 * exist on disk is a parameter.
 */
module Cli {
  import opened Wrappers
  import DC = DebugController

  /** The parsed options; `None` is a value option given as the last argument (`undefined`). */
  datatype CliOptions = CliOptions(
    outputDir: Option<string>,
    reportName: Option<string>,
    fixedName: Option<string>,
    multiple: bool,
    saveReport: bool,
    saveFixedCode: bool)

  const Defaults := CliOptions(Some("."), Some("debug-report.json"), Some("fixed-code.js"), false, true, true)

  /** How the entry point ends. */
  datatype Outcome =
    | Help                                   // usage printed, exit code 0
    | UnknownOption(arg: string)             // exit code 1
    | NoFilePath                             // exit code 1
    | FileNotFound(filePath: string)         // exit code 1
    | OutputDirUndefined                     // `mkdirSync(undefined)` throws
    | Launch(options: CliOptions, filePaths: seq<string>, multiple: bool, createsOutputDir: bool,
             controllerOptions: map<string, DC.Value>, reportPath: string, fixedCodePath: string)

  /** `arg.startsWith('-')`. */
  predicate IsDash(arg: string) {
    |arg| > 0 && arg[0] == '-'
  }

  /** `args[j]`, `undefined` past the end. */
  function ArgAt(args: seq<string>, j: nat): Option<string> {
    if j < |args| then Some(args[j]) else None
  }

  /** A value in a template string: `undefined` prints as such. */
  function Render(v: Option<string>): string {
    if v.Some? then v.value else "undefined"
  }

  predicate WantsHelp(args: seq<string>) {
    |args| == 0 || "-h" in args || "--help" in args
  }

  predicate IsKnownOption(arg: string) {
    arg in {"-o", "--output", "-r", "--report", "-f", "--fixed", "-m", "--multiple", "--no-report", "--no-fixed"}
  }

  /**
   * The argument loop from index `i` with the options and paths gathered so
   * far: the parsed options and paths, or the first unknown option.
   */
  function ParseFrom(args: seq<string>, i: nat, options: CliOptions, filePaths: seq<string>): Result<(CliOptions, seq<string>), string>
    decreases |args| - i
  {
    if i >= |args| then Success((options, filePaths))
    else
      var arg := args[i];
      if arg == "-o" || arg == "--output" then ParseFrom(args, i + 2, options.(outputDir := ArgAt(args, i + 1)), filePaths)
      else if arg == "-r" || arg == "--report" then ParseFrom(args, i + 2, options.(reportName := ArgAt(args, i + 1)), filePaths)
      else if arg == "-f" || arg == "--fixed" then ParseFrom(args, i + 2, options.(fixedName := ArgAt(args, i + 1)), filePaths)
      else if arg == "-m" || arg == "--multiple" then ParseFrom(args, i + 1, options.(multiple := true), filePaths)
      else if arg == "--no-report" then ParseFrom(args, i + 1, options.(saveReport := false), filePaths)
      else if arg == "--no-fixed" then ParseFrom(args, i + 1, options.(saveFixedCode := false), filePaths)
      else if !IsDash(arg) then ParseFrom(args, i + 1, options, filePaths + [arg])
      else Failure(arg)
  }

  function Parse(args: seq<string>): Result<(CliOptions, seq<string>), string> {
    ParseFrom(args, 0, Defaults, [])
  }

  /** The first path, in order, that does not exist. */
  function FirstMissing(filePaths: seq<string>, existing: set<string>): (r: Option<string>)
    decreases |filePaths|
  {
    if |filePaths| == 0 then None
    else if filePaths[0] !in existing then Some(filePaths[0])
    else FirstMissing(filePaths[1..], existing)
  }

  /** The options handed to the controller's constructor. */
  function ControllerOptions(options: CliOptions, outputDir: string): map<string, DC.Value> {
    map["saveReport" := DC.Bool(options.saveReport),
        "saveFixedCode" := DC.Bool(options.saveFixedCode),
        "outputDir" := DC.Str(outputDir)]
  }

  /** What the entry point does with its arguments. */
  function CliOutcome(args: seq<string>, existing: set<string>): Outcome {
    if WantsHelp(args) then Help
    else match Parse(args)
      case Failure(arg) => UnknownOption(arg)
      case Success((options, filePaths)) =>
        if |filePaths| == 0 then NoFilePath
        else match FirstMissing(filePaths, existing)
          case Some(missing) => FileNotFound(missing)
          case None =>
            if options.outputDir.None? then OutputDirUndefined
            else
              var dir := options.outputDir.value;
              Launch(options, filePaths, options.multiple || |filePaths| > 1,
                dir != "." && dir !in existing,
                ControllerOptions(options, dir),
                dir + "/" + Render(options.reportName),
                dir + "/" + Render(options.fixedName))
  }

  /** The entry point, step by step. */
  method Run(args: seq<string>, existing: set<string>) returns (outcome: Outcome)
    ensures outcome == CliOutcome(args, existing)
  {
    if |args| == 0 || "-h" in args || "--help" in args {
      return Help;
    }
    var options := Defaults;
    var filePaths: seq<string> := [];
    var i: nat := 0;
    while i < |args|
      invariant ParseFrom(args, i, options, filePaths) == Parse(args)
      decreases |args| - i
    {
      var arg := args[i];
      if arg == "-o" || arg == "--output" {
        options := options.(outputDir := ArgAt(args, i + 1));
        i := i + 2;
      } else if arg == "-r" || arg == "--report" {
        options := options.(reportName := ArgAt(args, i + 1));
        i := i + 2;
      } else if arg == "-f" || arg == "--fixed" {
        options := options.(fixedName := ArgAt(args, i + 1));
        i := i + 2;
      } else if arg == "-m" || arg == "--multiple" {
        options := options.(multiple := true);
        i := i + 1;
      } else if arg == "--no-report" {
        options := options.(saveReport := false);
        i := i + 1;
      } else if arg == "--no-fixed" {
        options := options.(saveFixedCode := false);
        i := i + 1;
      } else if !IsDash(arg) {
        filePaths := filePaths + [arg];
        i := i + 1;
      } else {
        return UnknownOption(arg);
      }
    }
    if |filePaths| == 0 {
      return NoFilePath;
    }
    for j := 0 to |filePaths|
      invariant FirstMissing(filePaths[j..], existing) == FirstMissing(filePaths, existing)
    {
      if filePaths[j] !in existing {
        return FileNotFound(filePaths[j]);
      }
      assert filePaths[j..][1..] == filePaths[j + 1..];
    }
    if options.outputDir.None? {
      return OutputDirUndefined;
    }
    var dir := options.outputDir.value;
    var createsOutputDir := dir != "." && dir !in existing;
    var reportPath := dir + "/" + Render(options.reportName);
    var fixedCodePath := dir + "/" + Render(options.fixedName);
    outcome := Launch(options, filePaths, options.multiple || |filePaths| > 1, createsOutputDir,
      ControllerOptions(options, dir), reportPath, fixedCodePath);
  }

  // ---------------------------------------------------------------------
  // Properties

  /** Help is shown exactly when there are no arguments or a help flag appears anywhere. */
  lemma HelpWins(args: seq<string>, existing: set<string>)
    ensures CliOutcome(args, existing) == Help <==> WantsHelp(args)
  {
  }

  /** Arguments that are all file names parse to the defaults and those names, in order. */
  lemma {:induction false} PositionalOnly(args: seq<string>, i: nat, options: CliOptions, filePaths: seq<string>)
    requires i <= |args|
    requires forall a :: a in args[i..] ==> !IsDash(a)
    ensures ParseFrom(args, i, options, filePaths) == Success((options, filePaths + args[i..]))
    decreases |args| - i
  {
    if i == |args| {
      assert filePaths + args[i..] == filePaths;
    } else {
      assert args[i] in args[i..];
      assert forall a :: a in args[i + 1..] ==> a in args[i..];
      PositionalOnly(args, i + 1, options, filePaths + [args[i]]);
      assert filePaths + [args[i]] + args[i + 1..] == filePaths + args[i..];
    }
  }

  /** So the plain `node ultra-debugger.js a.js b.js` debugs both files with the default options. */
  lemma PlainInvocation(args: seq<string>)
    requires forall a :: a in args ==> !IsDash(a)
    ensures Parse(args) == Success((Defaults, args))
  {
    assert args[0..] == args;
    PositionalOnly(args, 0, Defaults, []);
    assert [] + args == args;
  }

  /**
   * Every file path is an argument that does not start with `-`, and an
   * unknown option is an argument that starts with `-` and is none of the
   * ten known ones.
   */
  lemma {:induction false} ParsedFromArgs(args: seq<string>, i: nat, options: CliOptions, filePaths: seq<string>)
    requires forall p :: p in filePaths ==> p in args && !IsDash(p)
    ensures var r := ParseFrom(args, i, options, filePaths);
      && (r.Success? ==> forall p :: p in r.value.1 ==> p in args && !IsDash(p))
      && (r.Failure? ==> r.error in args && IsDash(r.error) && !IsKnownOption(r.error))
    decreases |args| - i
  {
    if i < |args| {
      var arg := args[i];
      if arg == "-o" || arg == "--output" {
        ParsedFromArgs(args, i + 2, options.(outputDir := ArgAt(args, i + 1)), filePaths);
      } else if arg == "-r" || arg == "--report" {
        ParsedFromArgs(args, i + 2, options.(reportName := ArgAt(args, i + 1)), filePaths);
      } else if arg == "-f" || arg == "--fixed" {
        ParsedFromArgs(args, i + 2, options.(fixedName := ArgAt(args, i + 1)), filePaths);
      } else if arg == "-m" || arg == "--multiple" {
        ParsedFromArgs(args, i + 1, options.(multiple := true), filePaths);
      } else if arg == "--no-report" {
        ParsedFromArgs(args, i + 1, options.(saveReport := false), filePaths);
      } else if arg == "--no-fixed" {
        ParsedFromArgs(args, i + 1, options.(saveFixedCode := false), filePaths);
      } else if !IsDash(arg) {
        ParsedFromArgs(args, i + 1, options, filePaths + [arg]);
      }
    }
  }

  /** A value option consumes the next argument whatever it is, even a flag. */
  lemma ValueConsumesNext(dir: string, rest: seq<string>)
    ensures ParseFrom(["-o", dir] + rest, 0, Defaults, []) == ParseFrom(["-o", dir] + rest, 2, Defaults.(outputDir := Some(dir)), [])
    ensures ParseFrom(["-o"], 0, Defaults, []) == Success((Defaults.(outputDir := None), []))
  {
  }

  /** The first missing path is a missing path, and no path before it is missing. */
  lemma {:induction false} FirstMissingFirst(filePaths: seq<string>, existing: set<string>)
    ensures var r := FirstMissing(filePaths, existing);
      && (r.None? <==> forall p :: p in filePaths ==> p in existing)
      && (r.Some? ==> exists k :: 0 <= k < |filePaths| && filePaths[k] == r.value && r.value !in existing
                                  && forall j :: 0 <= j < k ==> filePaths[j] in existing)
    decreases |filePaths|
  {
    if |filePaths| > 0 {
      FirstMissingFirst(filePaths[1..], existing);
      assert forall p :: p in filePaths <==> p == filePaths[0] || p in filePaths[1..];
      var r := FirstMissing(filePaths, existing);
      if r.Some? && filePaths[0] in existing {
        var k :| 0 <= k < |filePaths[1..]| && filePaths[1..][k] == r.value && r.value !in existing
                 && forall j :: 0 <= j < k ==> filePaths[1..][j] in existing;
        assert filePaths[k + 1] == r.value;
        assert forall j :: 0 <= j < k + 1 ==> filePaths[j] in existing by {
          forall j | 0 <= j < k + 1 ensures filePaths[j] in existing {
            if j > 0 {
              assert filePaths[j] == filePaths[1..][j - 1];
            }
          }
        }
      }
    }
  }

  /**
   * A launch debugs a non-empty list of existing argument files, several of
   * them exactly when `-m` was given or more than one path was.
   */
  lemma LaunchShape(args: seq<string>, existing: set<string>)
    requires CliOutcome(args, existing).Launch?
    ensures var o := CliOutcome(args, existing);
      && |o.filePaths| > 0
      && (forall p :: p in o.filePaths ==> p in args && !IsDash(p) && p in existing)
      && (o.multiple <==> o.options.multiple || |o.filePaths| > 1)
      && o.options.outputDir.Some?
  {
    ParsedFromArgs(args, 0, Defaults, []);
    FirstMissingFirst(Parse(args).value.1, existing);
  }

  /**
   * The controller a launch builds never meets a non-string output
   * directory, and it saves exactly what the flags ask for.
   */
  lemma LaunchedControllerSaves(args: seq<string>, existing: set<string>)
    requires CliOutcome(args, existing).Launch?
    ensures var o := CliOutcome(args, existing);
      var merged := DC.MergeOptions(o.controllerOptions);
      && !DC.BadOutputDir(merged)
      && DC.Lookup(merged, "outputDir") == DC.Str(o.options.outputDir.value)
      && (DC.Truthy(DC.Lookup(merged, "saveReport")) <==> o.options.saveReport)
      && (DC.Truthy(DC.Lookup(merged, "saveFixedCode")) <==> o.options.saveFixedCode)
  {
  }

  /** `--no-report` and `--no-fixed` turn the saves off and change nothing else. */
  lemma NoSaveFlags(args: seq<string>)
    ensures ParseFrom(["--no-report", "--no-fixed"] + args, 0, Defaults, [])
      == ParseFrom(["--no-report", "--no-fixed"] + args, 2, Defaults.(saveReport := false, saveFixedCode := false), [])
  {
  }
}
