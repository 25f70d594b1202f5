# Ultra Debugger, modelled in Dafny

Ultra Debugger is a Node.js tool for AI-generated JavaScript. It reads a
source file and runs three stages on it:

1. a **code analyzer** that scans the text with regular expressions and
   records *issues* (unreachable code) and *warnings*:
   - undefined variables;
   - infinite loops;
   - event-listener, `XMLHttpRequest` and timer leaks;
   - missing error handling;
   - non-literal array subscripts;
   - overly long functions;
2. an **auto-fixer** that rewrites the text in five passes:
   - comments in front of unreachable code;
   - a `try`/`catch` wrapper;
   - leak comment blocks;
   - an array-bounds comment block;
   - `let x; x +=` initialisation.

   It records every fix applied and derives suggestions from the findings.
3. a **debug controller** that chains the two. It summarises the result:
   - counts by type;
   - a 0–100 code-health score;
   - the totals over several files.

   It also decides whether the saves can proceed.

A **command-line entry point** parses the arguments and checks the paths.
It then builds the controller.

The Dafny model follows the program's structure:

| file | what it holds |
|---|---|
| `Wrappers.dfy` | `Option` and `Result` |
| `Text.dfy` | character classes of JavaScript regular expressions, `trim`, `substring`, `split`/`join`, decimal rendering |
| `Patterns.dfy` | one scanner per regular expression, following the backtracking order of the expression (greedy parts longest first, lazy parts shortest first), plus `exec`/`test`/the global `exec` loop |
| `Findings.dfy` | the analyzer's records and their `type`/`message` fields |
| `CodeAnalyzer.dfy` | class `CodeAnalyzer` with its `issues`/`warnings` fields and the seven scans |
| `AnalyzerProperties.dfy` | what each record means in terms of the scanned text |
| `FixerText.dfy` | the texts the fixer produces |
| `FixerProperties.dfy` | what the fixer's text passes preserve |
| `AutoFixer.dfy` | class `AutoFixer` with `fixesApplied`/`suggestions` and the five passes |
| `DebugController.dfy` | class `DebugController`: options, `debug`, `debugMultiple`, summaries, code health, grouping by type |
| `Cli.dfy` | the argument loop and checks of `ultra-debugger.js` |

**Objects and loops.** Objects whose fields the source updates are
classes whose methods state their new fields. Each `exec` loop, `forEach`
and `for … of` loop is a method with a loop invariant, proved against a
function of its inputs. The properties are lemmas about those functions.

**File system.** It is a map from path to either the file's text (with
the runtime simulator's execution-error count) or the error reading it
throws. The CLI sees the set of existing paths.

## Model

| member | source | states |
|---|---|---|
| CodeAnalyzer.CodeAnalyzer.constructor | src/scripts/codeAnalyzer.js:7-10 | a new analyzer holds no issues and no warnings |
| CodeAnalyzer.CodeAnalyzer.Analyze | src/scripts/codeAnalyzer.js:18-37 | the record lists are reset and then filled by the seven scans in order; the result carries the file name and both lists |
| CodeAnalyzer.CodeAnalyzer.CheckUndefinedVariables | src/scripts/codeAnalyzer.js:39-70 | appends one undefined-variable warning per identifier token that no declaration introduces and that is not an ignored word; issues unchanged |
| CodeAnalyzer.CodeAnalyzer.CheckUnreachableCode | src/scripts/codeAnalyzer.js:72-92 | appends the unreachable-code issues of the `return` scan and then of the `throw` scan; warnings unchanged |
| CodeAnalyzer.CodeAnalyzer.CheckInfiniteLoops | src/scripts/codeAnalyzer.js:94-111 | appends one loop warning per `for(;;)` match and then per `while(true)` match; issues unchanged |
| CodeAnalyzer.CodeAnalyzer.CheckResourceLeaks | src/scripts/codeAnalyzer.js:113-147 | appends listener, then `XMLHttpRequest`, then timer warnings; issues unchanged |
| CodeAnalyzer.CodeAnalyzer.CheckErrorHandling | src/scripts/codeAnalyzer.js:149-174 | appends the missing-error-handling warning exactly as `ErrorHandlingWarnings` says; issues unchanged |
| CodeAnalyzer.CodeAnalyzer.CheckArrayIndexAccess | src/scripts/codeAnalyzer.js:176-196 | appends one warning per subscript match whose index is not all digits; issues unchanged |
| CodeAnalyzer.CodeAnalyzer.CheckFunctionComplexity | src/scripts/codeAnalyzer.js:198-220 | appends one warning per function match whose body has more than 50 lines; issues unchanged |
| CodeAnalyzer.CollectDeclarations | src/scripts/codeAnalyzer.js:44-51 | the `exec` loop over declarations collects exactly the declared names |
| CodeAnalyzer.Scan | src/scripts/codeAnalyzer.js:79-91 | the `exec` loop of one scan collects the records of all its matches, in order |
| CodeAnalyzer.Report | src/scripts/codeAnalyzer.js:55-58 | one match yields at most one record, at the match's offset |
| CodeAnalyzer.Reports | src/scripts/codeAnalyzer.js:62-69 | a scan yields at most one record per match |
| CodeAnalyzer.FoundEachStep | src/scripts/codeAnalyzer.js:79-91 | running one more expression of a list appends its records |
| AnalyzerProperties.InReports | src/scripts/codeAnalyzer.js:49-69 | a record comes out of a scan exactly when one of its matches contributes it |
| AnalyzerProperties.MatchOfScan | src/scripts/codeAnalyzer.js:49 | every match the loop reports is a real match at its own offset |
| AnalyzerProperties.FoundWitness | src/scripts/codeAnalyzer.js:81-90 | each record of a scan comes from a real match of the scan |
| AnalyzerProperties.ReportsEveryMatch | src/scripts/codeAnalyzer.js:103-108 | scans without a filter report exactly one record per match |
| AnalyzerProperties.ReportsAscending | src/scripts/codeAnalyzer.js:81-90 | matches taken in order of their starts give records at strictly ascending offsets |
| AnalyzerProperties.FoundAscending | src/scripts/codeAnalyzer.js:81-90 | a scan's records stand at strictly ascending offsets: at most one per match, in the order the matches occur |
| AnalyzerProperties.FoundWithin | src/scripts/codeAnalyzer.js:81-90 | every record of a scan points inside the code |
| AnalyzerProperties.UndefinedVariableIff | src/scripts/codeAnalyzer.js:41-69 | a name is reported at an offset iff an identifier token with that name starts there, it is undeclared and it is not one of the 14 ignored words |
| AnalyzerProperties.UndefinedVariableOrder | src/scripts/codeAnalyzer.js:54-69 | one warning per occurrence, not per name: the warnings stand at strictly ascending offsets, in the order the names occur |
| AnalyzerProperties.UndefinedVariableText | src/scripts/codeAnalyzer.js:42-67 | the reported name is the text at the reported offset, undeclared and not ignored |
| AnalyzerProperties.IdentifierReport | src/scripts/codeAnalyzer.js:54-58 | an identifier match's record names the token at its offset |
| AnalyzerProperties.UnreachableIssuesSplit | src/scripts/codeAnalyzer.js:74-91 | the issues are the `return` records followed by the `throw` records |
| AnalyzerProperties.OneKindAscending | src/scripts/codeAnalyzer.js:79-91 | when the code has only `return` issues or only `throw` issues, they stand at strictly ascending offsets inside the code |
| AnalyzerProperties.OneKindInOrder | src/scripts/autoFixer.js:47-58 | for such code the unreachable-code pass puts a comment between each two pieces of the code cut at the issues' offsets, and the pieces make up the code |
| AnalyzerProperties.UnreachableIssueIff | src/scripts/codeAnalyzer.js:74-91 | an issue with snippet `c` at `pos` exists iff a `return`/`throw` match starts there with non-blank code and `c` is its first 50 characters plus `...` |
| AnalyzerProperties.UnreachableFoundIff | src/scripts/codeAnalyzer.js:79-90 | the same for one of the two expressions |
| AnalyzerProperties.ReturnMatchText | src/scripts/codeAnalyzer.js:75 | a `return` match starts at `return` and its code ends before a line break and `}` |
| AnalyzerProperties.ThrowMatchText | src/scripts/codeAnalyzer.js:76 | a `throw` match starts at `throw` and its code ends before a line break and `}` |
| AnalyzerProperties.UnreachableReport | src/scripts/codeAnalyzer.js:82-88 | the snippet is the non-blank code cut to 50 characters plus `...` (3 to 53 characters) |
| AnalyzerProperties.UnreachableIssueText | src/scripts/codeAnalyzer.js:72-92 | every issue sits at `return` or `throw`, and its snippet comes from a closed block body |
| AnalyzerProperties.LoopWarningsSplit | src/scripts/codeAnalyzer.js:96-110 | the loop warnings are the `for` records followed by the `while` records |
| AnalyzerProperties.LoopMatchText | src/scripts/codeAnalyzer.js:97-108 | a loop warning sits where `for` or `while` is written |
| AnalyzerProperties.LoopWarningsCount | src/scripts/codeAnalyzer.js:94-111 | one warning per `for(;;)` and per `while(true)` match, each at a `for` or a `while` |
| AnalyzerProperties.ThreeSemicolonsNotForever | src/scripts/codeAnalyzer.js:97 | `for(;;;)` is not an infinite-loop match |
| AnalyzerProperties.ReportsTyped | src/scripts/codeAnalyzer.js:104-145 | every record of an unfiltered scan carries that scan's type |
| AnalyzerProperties.OfTypeGroups | src/scripts/codeAnalyzer.js:119-146 | filtering three lists of distinct types, appended, by each type recovers each list |
| AnalyzerProperties.LeakWarningCounts | src/scripts/codeAnalyzer.js:113-147 | there are as many warnings of each leak type as its expression has matches |
| AnalyzerProperties.TryCatchHasCatch | src/scripts/codeAnalyzer.js:165-166 | whenever the `try … catch(` test succeeds the `catch(` test succeeds too |
| AnalyzerProperties.ErrorHandlingIff | src/scripts/codeAnalyzer.js:149-174 | at most one warning, present iff some async expression matches and `catch(` does not |
| AnalyzerProperties.ArrayWarningIff | src/scripts/codeAnalyzer.js:176-196 | a subscript warning exists iff a match with that name, index and offset exists and the index is not all digits |
| AnalyzerProperties.ArrayAccessText | src/scripts/codeAnalyzer.js:178 | a subscript match is `name[index]` with a non-empty index on one line |
| AnalyzerProperties.ArrayWarningMatch | src/scripts/codeAnalyzer.js:181-194 | each warning comes from a subscript match whose index is not all digits |
| AnalyzerProperties.ArrayWarningText | src/scripts/codeAnalyzer.js:176-196 | each warning's index is non-empty, not all digits, on one line, and the matched text is `array[index]` |
| AnalyzerProperties.ComplexityReport | src/scripts/codeAnalyzer.js:204-218 | one function match reports iff its body has at least 50 line breaks, with lines = breaks + 1 |
| AnalyzerProperties.ComplexityIff | src/scripts/codeAnalyzer.js:198-220 | a complexity warning exists iff such a function match exists |
| AnalyzerProperties.ReportsUnreachable | src/scripts/codeAnalyzer.js:23-29 | only the two unreachable-code scans produce unreachable-code records |
| Patterns.Exec | src/scripts/codeAnalyzer.js:49 | `exec` returns the leftmost match at or after `lastIndex`, and `null` only when there is none |
| Patterns.AllMatchesOrdered | src/scripts/codeAnalyzer.js:49-51 | the global loop reports real matches, ascending and non-overlapping |
| Patterns.AllMatchesComplete | src/scripts/codeAnalyzer.js:49-51 | every match the loop skips lies inside a reported match |
| Patterns.OccursIff | src/scripts/codeAnalyzer.js:159 | `test` succeeds iff the expression matches at some offset |
| Patterns.ScanStep | src/scripts/codeAnalyzer.js:81 | one turn of an `exec` loop moves the next match from those to come to those reported |
| Patterns.DeclarationAt | src/scripts/codeAnalyzer.js:41 | a declaration match captures a non-empty word |
| Patterns.IdentifierAt | src/scripts/codeAnalyzer.js:42 | an identifier match captures exactly the text it covers |
| Patterns.ReturnAt | src/scripts/codeAnalyzer.js:75 | a match starts with `return` and ends at a closing line |
| Patterns.ThrowAt | src/scripts/codeAnalyzer.js:76 | a match starts with `throw` and ends at a closing line |
| Patterns.FirstClose | src/scripts/codeAnalyzer.js:75-76 | the lazy code ends at the first place where a line break and `}` follow |
| Patterns.EventListenerAt | src/scripts/codeAnalyzer.js:115 | a listener match captures a non-empty event word and handler word |
| Patterns.TimerCallAt | src/scripts/codeAnalyzer.js:117 | a timer match captures `setInterval` or `setTimeout` |
| Patterns.TryCatchAt | src/scripts/codeAnalyzer.js:166 | a `try … catch(` match contains a `catch(` match |
| Patterns.ArrayAccessAt | src/scripts/codeAnalyzer.js:178 | a match covers `name[index]` with the index on one line and no `]` after its first character |
| Patterns.FunctionDeclAt | src/scripts/codeAnalyzer.js:200 | the captured body holds no `}` |
| Patterns.AccumulatorAt | src/scripts/autoFixer.js:202 | a match is `let`/`var`, blanks, a name, `;`, blanks, the same name, blanks, `+=` |
| Text.SpaceEnd | src/scripts/codeAnalyzer.js:75 | a greedy `\s*` stops at the first non-blank |
| Text.Prefix | src/scripts/codeAnalyzer.js:85 | `substring(0, 50)` is a prefix of at most 50 characters, all of a shorter string |
| Text.NatToStringRoundTrip | src/scripts/autoFixer.js:110 | reading back a rendered count gives the count |
| Text.JoinSplit | src/scripts/autoFixer.js:82 | joining a split gives the text back |
| Text.SplitJoin | src/scripts/autoFixer.js:82 | splitting a join of separator-free lines gives the lines back |
| Text.SplitLength | src/scripts/codeAnalyzer.js:208 | `split('\n')` has one more piece than the text has line breaks |
| Findings.OfType | src/scripts/autoFixer.js:105 | `filter` by type keeps exactly the records of that type |
| Findings.OfTypeAppend | src/scripts/autoFixer.js:105 | filtering distributes over concatenation |
| AutoFixer.AutoFixer.constructor | src/scripts/autoFixer.js:7-10 | a new fixer holds no fixes and no suggestions |
| AutoFixer.AutoFixer.Fix | src/scripts/autoFixer.js:19-40 | the lists are reset and the five passes run in order on each other's output; the result is the final text, the records and the suggestions |
| AutoFixer.AutoFixer.FixUnreachableCode | src/scripts/autoFixer.js:42-68 | the loop inserts the comment at each issue's offset shifted by the comments already in, and records each original offset |
| AutoFixer.AutoFixer.FixErrorHandling | src/scripts/autoFixer.js:70-98 | the text is wrapped (and one record added) iff a missing-error-handling warning exists and the text has no `try … catch(` |
| AutoFixer.AutoFixer.FixResourceLeaks | src/scripts/autoFixer.js:100-173 | the text and records are those of `LeakText`/`LeakRecords` for the three warning counts |
| AutoFixer.AutoFixer.FixArrayIndexAccess | src/scripts/autoFixer.js:175-195 | the array-bounds block is prepended, and recorded, iff there are subscript warnings |
| AutoFixer.AutoFixer.FixVariableInitialization | src/scripts/autoFixer.js:197-227 | the loop with drifting offset produces the rewrite of every match and records each variable |
| AutoFixer.AutoFixer.GenerateSuggestions | src/scripts/autoFixer.js:229-268 | appends exactly the suggestions of the findings; fixes unchanged |
| AutoFixer.UnreachableTyped | src/scripts/autoFixer.js:47-55 | a record of type `unreachable_code` is an unreachable-code issue, message `Unreachable code detected` |
| AutoFixer.UnreachableInOrder | src/scripts/autoFixer.js:47-52 | issues at strictly ascending offsets inside the text hand the pass ordered, in-range offsets |
| AutoFixer.CommentsBetweenPieces | src/scripts/autoFixer.js:47-58 | for such issues the output is the text's pieces between the offsets with a comment between each two, and the pieces rebuild the text |
| AutoFixer.OutOfOrderDrifts | src/scripts/autoFixer.js:49-58 | a `throw` issue listed after a later `return` issue gets its comment one comment length past its offset, where the same issues in order put it at the offset |
| AutoFixer.LeakRecordsShape | src/scripts/autoFixer.js:107-170 | at most three leak records, one per category iff it has warnings, each with its count |
| AutoFixer.RewritingEnds | src/scripts/autoFixer.js:204-226 | the rewrite loop starts in its invariant and ends with the whole rewrite and all matches |
| AutoFixer.StepSplice | src/scripts/autoFixer.js:211-217 | one turn splices the replacement in at the drifted offset |
| AutoFixer.Dedup | src/scripts/autoFixer.js:235 | `[...new Set(xs)]` has no repeats and the same members as `xs` (order: DedupFirstOccurrence) |
| AutoFixer.FirstIndex | src/scripts/autoFixer.js:235 | the index where the value occurs and does not occur before |
| AutoFixer.DedupFirstOccurrence | src/scripts/autoFixer.js:235 | `[...new Set(xs)]` lists the values in the order of their first occurrences |
| AutoFixer.SuggestionsShape | src/scripts/autoFixer.js:229-268 | at most one suggestion per kind in generator order, none iff there are no issues and none of the three warning kinds |
| AutoFixer.NothingFound | src/scripts/autoFixer.js:19-40 | with no issues and no warnings only the accumulator rewrite changes the text or adds records, and there are no suggestions; without an accumulator match the text comes back unchanged with no records |
| FixerText.InsertAt | src/scripts/autoFixer.js:56 | `slice` + comment + `slice` lengthens the text by the comment |
| FixerText.Clamp | src/scripts/autoFixer.js:215 | a `slice` index lies in the text and is unchanged when already inside it |
| FixerProperties.InsertedSpliced | src/scripts/autoFixer.js:42-68 | for ordered in-range offsets, the drifting insertions equal the reference splice |
| FixerProperties.InsertedRoundTrip | src/scripts/autoFixer.js:42-68 | the output is the text's pieces with a comment between each two, the pieces rebuild the input, and comment `k` stands at offset `k` plus `k` comment lengths |
| FixerProperties.InsertedOutOfOrder | src/scripts/autoFixer.js:49-58 | with two offsets out of order the second comment stands one comment length past its offset, not at it |
| FixerProperties.InsertedLength | src/scripts/autoFixer.js:49-58 | each comment adds its own length |
| FixerProperties.SplicedLength | src/scripts/autoFixer.js:49-58 | the splice is longer by one comment per issue |
| FixerProperties.CutConcat | src/scripts/autoFixer.js:56 | the pieces between the offsets rebuild the text |
| FixerProperties.UnwrapWrapped | src/scripts/autoFixer.js:80-86 | taking the wrapper off gives back the code, line breaks included |
| FixerProperties.EventBlockFirst | src/scripts/autoFixer.js:135 | an event block at the top is the first match of the listener-block expression, whatever its count |
| FixerProperties.LeakBlockFirst | src/scripts/autoFixer.js:160 | a leak block of either kind at the top is the first match of the leak-block expression |
| FixerProperties.InsertBelowEventBlock | src/scripts/autoFixer.js:134-137 | the resource block lands right below the event block |
| FixerProperties.InsertBelowLeakBlock | src/scripts/autoFixer.js:159-162 | the timer block lands right below the first leak block |
| FixerProperties.LeakAllThree | src/scripts/autoFixer.js:100-173 | with all three kinds the text is event block, timer block, resource block, code |
| FixerProperties.LeakEventsResources | src/scripts/autoFixer.js:107-145 | events and resources: event block, resource block, code |
| FixerProperties.LeakEventsTimers | src/scripts/autoFixer.js:107-170 | events and timers: event block, timer block, code |
| FixerProperties.LeakResourcesTimers | src/scripts/autoFixer.js:123-170 | resources and timers: resource block, timer block, code |
| FixerProperties.LeakTimersAlone | src/scripts/autoFixer.js:150-163 | timer warnings alone leave a text without a leak block unchanged, because `hasLeaks` is already set |
| FixerProperties.LeakNone | src/scripts/autoFixer.js:100-173 | no leak warnings, no change |
| FixerProperties.RewriteStep | src/scripts/autoFixer.js:207-218 | one turn of the rewrite loop keeps the built text a prefix of the whole rewrite |
| FixerProperties.RewriteWeave | src/scripts/autoFixer.js:197-227 | the rewrite replaces exactly the reported spans, each by its initialised form |
| FixerProperties.WeaveOriginal | src/scripts/autoFixer.js:215 | putting the original text back into successive spans gives the text back |
| FixerProperties.RewriteRoundTrip | src/scripts/autoFixer.js:197-227 | the rewrite is the input with each match replaced, and putting the originals back gives the input |
| FixerProperties.RewriteNothing | src/scripts/autoFixer.js:207 | without a match the pass changes nothing |
| FixerProperties.AccumulatorShape | src/scripts/autoFixer.js:202 | only blanks separate the declaration from its `+=` |
| DebugController.DebugController.constructor | src/middleware/debugController.js:13-24 | the options are the merged options, the report is the initial empty one, the analyzer and fixer are new and empty |
| DebugController.MergeOptions | src/middleware/debugController.js:18-23 | the three computed keys are always present and every given key overrides them |
| DebugController.MergeDefaults | src/middleware/debugController.js:18-23 | with no options both saves are on, into `.` |
| DebugController.MergeSemantics | src/middleware/debugController.js:18-23 | a save is on iff its key is missing or truthy; the directory is the given value whenever the key is present, else `.` |
| DebugController.SubScore | src/middleware/debugController.js:194-196 | `max(0, 100 - n*w)` is at most 100 and 100 for none |
| DebugController.RoundDivNearest | src/middleware/debugController.js:198 | `Math.round(s/n)` is the unique `r` with `r - 1/2 <= s/n < r + 1/2` |
| DebugController.RoundDivMonotone | src/middleware/debugController.js:188 | a larger sum never rounds to a smaller mean |
| DebugController.RoundDivBound | src/middleware/debugController.js:188 | the mean of values at most `m` rounds to at most `m` |
| DebugController.CodeHealthRange | src/middleware/debugController.js:192-199 | the score is between 0 and 100, and 100 for clean code |
| DebugController.CodeHealthMonotone | src/middleware/debugController.js:192-199 | more issues, warnings or errors never raise the score |
| DebugController.DebugController.GroupByType | src/middleware/debugController.js:201-211 | the `forEach` loop builds the tally of the items' types |
| DebugController.TalliedCounts | src/middleware/debugController.js:201-211 | each type counts its items, a key exists iff some item has it, keys are distinct |
| DebugController.TalliedTotal | src/middleware/debugController.js:201-211 | the counts add up to the number of items |
| DebugController.OccurrencesOfType | src/middleware/debugController.js:201-211 | the number of items `_groupByType` counts under a finding type equals the number of findings `filter(f => f.type === t)` keeps |
| DebugController.DebugController.GenerateSummary | src/middleware/debugController.js:153-167 | the summary of the analysis, error count and fixes |
| DebugController.SummaryConsistent | src/middleware/debugController.js:153-167 | score at most 100; each by-type table's counts add up to its list's total |
| DebugController.FindingsByType | src/middleware/debugController.js:162-163 | an issue/warning table lists exactly the types present, each with the number of findings of that type (the fixer's `CountOf`) |
| DebugController.FixesByType | src/middleware/debugController.js:164 | the fix table lists exactly the fix types present, each with its count |
| DebugController.Read | src/middleware/debugController.js:36 | reading a missing path throws `ENOENT` with a non-empty message |
| DebugController.BaseName | src/middleware/debugController.js:37 | `path.basename` contains no slash |
| DebugController.BaseNameJoin | src/middleware/debugController.js:37 | the base name of `dir/name` is `name` |
| DebugController.ReportFacts | src/middleware/debugController.js:36-64 | the report is named after the file, analyses its text, fixes it with those findings, and its summary is consistent |
| DebugController.RuntimeOnlyScores | src/middleware/debugController.js:45-62 | the runtime result changes only the error count and the score, and more errors never raise the score |
| DebugController.DebugFailsWhen | src/middleware/debugController.js:31-82 | `debug` throws iff the read fails or a save joins a non-string directory; a read error is rethrown as is |
| DebugController.DefaultOptionsSucceed | src/middleware/debugController.js:18-23 | with the default options a readable file always yields its report |
| DebugController.DebugController.Pipeline | src/middleware/debugController.js:41-62 | analysis, fix and summary of the text; the analyzer and fixer hold the report's records |
| DebugController.DebugController.Store | src/middleware/debugController.js:56-64 | the stored report is replaced; options unchanged |
| DebugController.DebugController.Debug | src/middleware/debugController.js:31-82 | returns or throws as `DebugOutcome`; the stored report is replaced only once the file was read, and a failed read leaves the analyzer and fixer alone |
| DebugController.DebugController.Save | src/middleware/debugController.js:66-73 | the save steps throw as `Saved` says: a save into a non-string directory fails |
| DebugController.DebugController.DebugEntry | src/middleware/debugController.js:95-104 | one iteration of `debugMultiple`: the report, or the error message as an entry |
| DebugController.Entries | src/middleware/debugController.js:94-105 | one entry per path |
| DebugController.EntriesPointwise | src/middleware/debugController.js:94-105 | entry `i` is what debugging path `i` on its own yields |
| DebugController.LoopStep | src/middleware/debugController.js:94-105 | how entries, stored report and readability grow by one path |
| DebugController.DebugController.DebugEach | src/middleware/debugController.js:90-105 | the loop collects all entries; the stored report is that of the last readable path |
| DebugController.DebugController.DebugMultiple | src/middleware/debugController.js:89-124 | returns or throws as `MultiOutcome` over all entries; stored report as in the loop |
| DebugController.DebugController.Summarise | src/middleware/debugController.js:107-123 | the multi-file report, or the error of its summary or save |
| DebugController.SplitMembers | src/middleware/debugController.js:170-171 | the successful entries are those without an error message, the failed ones the rest |
| DebugController.SuccessfulFailedSplit | src/middleware/debugController.js:170-182 | every entry is either successful or failed |
| DebugController.Reports | src/middleware/debugController.js:174-177 | the reports of the successful entries, one per entry |
| DebugController.MultiSummaryDefined | src/middleware/debugController.js:169-190 | the summary exists iff every error entry has a message |
| DebugController.ReportsDefined | src/middleware/debugController.js:174-177 | every successful entry has a report iff none is an error entry |
| DebugController.MultiSummaryCounts | src/middleware/debugController.js:180-182 | `successful + failed == totalFiles == results.length` |
| DebugController.MultiHealthBound | src/middleware/debugController.js:187-188 | the mean score is at most 100, and 0 without successes |
| DebugController.AppendFailed | src/middleware/debugController.js:169-190 | a failed file adds one to the file and failure counts and nothing else |
| DebugController.AppendCompleted | src/middleware/debugController.js:169-190 | a completed file adds its counts to each total |
| DebugController.MultiOutcomeHealth | src/middleware/debugController.js:89-124 | over real paths whose read errors have messages, the summary exists and scores at most 100 |
| DebugController.EntryWellFormed | src/middleware/debugController.js:95-104 | an error entry keeps the read message, and a report scores at most 100 |
| Cli.Run | ultra-debugger.js:11-114 | the entry point step by step: help, then the argument loop, empty check, existence check, output directory, and launch |
| Cli.HelpWins | ultra-debugger.js:15-38 | help is shown iff there are no arguments or `-h`/`--help` appears anywhere |
| Cli.PositionalOnly | ultra-debugger.js:53-81 | arguments without a dash become paths, in order, and leave the options alone |
| Cli.PlainInvocation | ultra-debugger.js:41-81 | plain file arguments parse to the defaults and those paths |
| Cli.ParsedFromArgs | ultra-debugger.js:53-81 | every path is a non-dash argument; an unknown option is a dash argument that is not one of the ten known ones |
| Cli.ValueConsumesNext | ultra-debugger.js:56-58 | `-o` takes the next argument whatever it is, and `undefined` when it is last |
| Cli.FirstMissingFirst | ultra-debugger.js:89-95 | the reported path is the first missing one, and none is reported iff all exist |
| Cli.LaunchShape | ultra-debugger.js:84-114 | a launch has a non-empty list of existing non-dash paths, multi-file iff `-m` or more than one path |
| Cli.LaunchedControllerSaves | ultra-debugger.js:97-111 | the controller a launch builds has a string directory and saves exactly what the flags ask |
| Cli.NoSaveFlags | ultra-debugger.js:68-73 | `--no-report`/`--no-fixed` turn the saves off and nothing else |

## Left out

- FixerProperties.InsertedRoundTrip: proved only for offsets in order. The analyzer lists every `return` issue before every `throw` issue (AnalyzerProperties.UnreachableIssuesSplit), and `debug` hands that list to the fixer unchanged. A `throw` issue that comes before a `return` issue in the code therefore reaches the drifting-offset loop out of order, and its comment lands one comment length past its offset (AutoFixer.OutOfOrderDrifts). The model keeps that behaviour; the round trip is proved for code whose issues are all of one kind (AnalyzerProperties.OneKindInOrder).
- The runtime debugger (`runtimeDebugger.js`) is not part of this model. Its execution-error count is an input per readable file.
- File writes and their errors are not modelled: `saveReport`, `saveFixedCode` and the multi-file `writeFile`. The only failure modelled is the `TypeError` that `path.join` throws for a non-string output directory.
- The `!this.debugReport` guards of `saveReport`/`saveFixedCode` are left out. An object is always truthy, so they never throw after `debug` has stored a report.
- Console output, time stamps, `async`/promise scheduling and process exit codes are left out. The CLI ends in an `Outcome` value.
- The MCP server and the CLI block of `debugController.js` (lines 215-238) are not part of this model.
- Cli.Run: creating the output directory is only flagged (`createsOutputDir`); `mkdirSync` on a string path is not modelled, and neither are its failures.
- Cli.Run: `reportName`/`fixedName` only appear in console messages; the controller always writes `debug-report.json` and `fixed-code.js`.
- The message of the `TypeError` thrown for an `undefined` output directory, or for an error entry without a message, is a fixed string. Node's exact wording is not reproduced.
- JavaScript strings are UTF-16 code units. The model uses Dafny characters, so surrogate pairs are not modelled.
- The regular-expression engine is not modelled in general. Each expression of the source has its own scanner, following JavaScript's backtracking order.
- `NaN` as an option value is not modelled in `Truthy`.
- DebugController.GroupByType: keys inherited from `Object.prototype` (such as `constructor`) are not modelled. Such a type would start from the inherited value instead of 0.
- DebugController.BaseName: models POSIX `path.basename` only; Windows separators are not modelled.
- The source's `issues`/`warnings` arguments to `fix` can hold any objects. Here they are the analyzer's typed records, and each record's `type` and `message` follow from its kind.
