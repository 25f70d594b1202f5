/**
 * The text the auto-fixer writes: the unreachable-code comments spliced in
 * at the reported offsets, the try/catch wrapper, the leak and array-bounds
 * comment blocks, and the accumulator-initialisation rewrite.
 */
module FixerText {
  import opened Wrappers
  import opened Text
  import opened Patterns

  // ---------------------------------------------------------------------
  // Comments spliced in at offsets (autoFixer.js:42-68)

  /** `text.slice(0, p) + s + text.slice(p)`; `slice` clamps `p` to the text. */
  function InsertAt(text: string, p: nat, s: string): (r: string)
    ensures |r| == |text| + |s|
  {
    var q := if p <= |text| then p else |text|;
    text[..q] + s + text[q..]
  }

  /** Offsets that never decrease. */
  predicate Ascending(ps: seq<nat>) {
    forall i, j :: 0 <= i <= j < |ps| ==> ps[i] <= ps[j]
  }

  /** Offsets that all lie within a text of length `n`. */
  predicate Bounded(ps: seq<nat>, n: nat) {
    forall i :: 0 <= i < |ps| ==> ps[i] <= n
  }

  /**
   * The text after the loop has inserted `comment` at each offset of `ps`
   * in turn, each offset shifted by the length of the comments already in.
   */
  function Inserted(code: string, ps: seq<nat>, comment: string): string {
    if |ps| == 0 then code
    else
      var n := |ps| - 1;
      InsertAt(Inserted(code, ps[..n], comment), ps[n] + n * |comment|, comment)
  }

  /**
   * The reference splice: cut the text at its last offset, splice the
   * earlier offsets into the part before the cut, and put the comment into
   * the cut.
   */
  function Spliced(code: string, ps: seq<nat>, comment: string): string
    requires Ascending(ps) && Bounded(ps, |code|)
    decreases |ps|
  {
    if |ps| == 0 then code
    else
      var n := |ps| - 1;
      Spliced(code[..ps[n]], ps[..n], comment) + comment + code[ps[n]..]
  }

  /** The pieces of `code` between the offsets of `ps`. */
  function Cut(code: string, ps: seq<nat>): (pieces: seq<string>)
    requires Ascending(ps) && Bounded(ps, |code|)
    ensures |pieces| == |ps| + 1
    decreases |ps|
  {
    if |ps| == 0 then [code]
    else
      var n := |ps| - 1;
      Cut(code[..ps[n]], ps[..n]) + [code[ps[n]..]]
  }

  /** The pieces one after the other. */
  function Concat(pieces: seq<string>): string {
    if |pieces| == 0 then "" else Concat(pieces[..|pieces| - 1]) + pieces[|pieces| - 1]
  }

  /** The pieces with `sep` between each two neighbours. */
  function Interleave(pieces: seq<string>, sep: string): string
    requires |pieces| >= 1
  {
    if |pieces| == 1 then pieces[0]
    else Interleave(pieces[..|pieces| - 1], sep) + sep + pieces[|pieces| - 1]
  }

  // ---------------------------------------------------------------------
  // The try/catch wrapper (autoFixer.js:80-86)

  const WrapperHeader := "// ULTRA-DEBUGGER: Added error handling wrapper\ntry {\n"
  const WrapperFooter := "\n} catch (error) {\n  console.error('ULTRA-DEBUGGER: Caught error:', error);\n  // TODO: Implement proper error handling\n}"

  /** `lines.map(line => '  ' + line)`. */
  function Indent(lines: seq<string>): seq<string> {
    seq(|lines|, k requires 0 <= k < |lines| => "  " + lines[k])
  }

  /** The whole text, each line indented by two spaces, inside `try { … } catch`. */
  function Wrapped(code: string): string {
    WrapperHeader + Join(Indent(Split(code, '\n')), '\n') + WrapperFooter
  }

  /** Every line starts with two spaces. */
  predicate AllIndented(lines: seq<string>) {
    forall k :: 0 <= k < |lines| ==> At(lines[k], 0, "  ")
  }

  /** The inverse of `Indent` on lines that are all indented. */
  function Dedent(lines: seq<string>): seq<string>
    requires AllIndented(lines)
  {
    seq(|lines|, k requires 0 <= k < |lines| && AllIndented(lines) => lines[k][2..])
  }

  /** The code inside a wrapper, if the text is one. */
  function Unwrapped(text: string): Option<string> {
    if |text| < |WrapperHeader| + |WrapperFooter| then None
    else if text[..|WrapperHeader|] != WrapperHeader then None
    else if text[|text| - |WrapperFooter|..] != WrapperFooter then None
    else
      var lines := Split(text[|WrapperHeader|..|text| - |WrapperFooter|], '\n');
      if AllIndented(lines) then Some(Join(Dedent(lines), '\n')) else None
  }

  // ---------------------------------------------------------------------
  // Comment blocks (autoFixer.js:110-111, 127-128, 152-153, 182-183)

  const TimerKind := "timer"
  const TimerTodo := "Ensure timers are properly cleared with clearTimeout/clearInterval"

  /** `// ULTRA-DEBUGGER: Found <count> potential <kind> leaks`, then `// TODO: <todo>`. */
  function LeakComment(kind: string, count: nat, todo: string): string {
    FoundPrefix + NatToString(count) + LeakTail(kind, todo)
  }

  function EventComment(count: nat): string {
    LeakComment(EventKind, count, EventTodo)
  }

  function ResourceComment(count: nat): string {
    LeakComment(ResourceKind, count, ResourceTodo)
  }

  function TimerComment(count: nat): string {
    LeakComment(TimerKind, count, TimerTodo)
  }

  function ArrayComment(count: nat): string {
    FoundPrefix + NatToString(count) + " potential array index out of bounds issues\n"
    + "// TODO: Add proper bounds checking before array access\n"
  }

  /**
   * `text.replace(re, '$1' + s)` for an expression wrapped whole in group 1
   * and without the `g` flag: `s` goes right after the first match, and the
   * text is unchanged when there is none.
   */
  function InsertAfterFirst(text: string, pat: Pattern, s: string): string {
    match Exec(pat, text, 0)
    case None => text
    case Some(m) => text[..m.end] + s + text[m.end..]
  }

  /**
   * The leak pass, given the numbers of event-listener, resource and timer
   * warnings: the event block goes first; the resource block is prepended,
   * or goes right after the first event block when there is one; the timer
   * block goes right after the first event or resource block the text holds.
   */
  function LeakText(code: string, events: nat, resources: nat, timers: nat): string {
    WithTimers(WithResources(WithEvents(code, events), events, resources), timers)
  }

  /** The event-listener block goes on top. */
  function WithEvents(code: string, events: nat): string {
    if events > 0 then EventComment(events) + code else code
  }

  /** The resource block goes on top, or below the first event block when there are event warnings. */
  function WithResources(text: string, events: nat, resources: nat): string {
    if resources == 0 then text
    else if events == 0 then ResourceComment(resources) + text
    else InsertAfterFirst(text, EventHeader, ResourceComment(resources))
  }

  /** The timer block goes below the first leak block the text holds. */
  function WithTimers(text: string, timers: nat): string {
    if timers > 0 then InsertAfterFirst(text, LeakHeader, TimerComment(timers)) else text
  }

  /** The array-bounds pass, given the number of array-subscript warnings. */
  function ArrayText(code: string, count: nat): string {
    if count > 0 then ArrayComment(count) + code else code
  }

  // ---------------------------------------------------------------------
  // The accumulator rewrite (autoFixer.js:202-224)

  /** `${varType} ${varName} = 0; ${varName} +=`. */
  function Replacement(m: Match): string {
    m.g1 + " " + m.g2 + " = 0; " + m.g2 + " +="
  }

  /** The text from `from` on, each accumulator match replaced by its initialised form. */
  function RewriteFrom(code: string, from: nat): string
    requires from <= |code|
    decreases |code| - from
  {
    match Exec(Accumulator, code, from)
    case None => code[from..]
    case Some(m) => code[from..m.start] + Replacement(m) + RewriteFrom(code, m.end)
  }

  function Rewritten(code: string): string {
    RewriteFrom(code, 0)
  }

  /** A `slice` index: negative ones count from the end, and all are clamped to the text. */
  function Clamp(i: int, n: nat): (j: nat)
    ensures j <= n
    ensures 0 <= i <= n ==> j == i
  {
    if i < 0 then (if n + i < 0 then 0 else n + i) else if i > n then n else i
  }

  /** `text.slice(0, position) + rep + text.slice(position + length)`. */
  function ReplaceSpan(text: string, position: int, length: nat, rep: string): string {
    text[..Clamp(position, |text|)] + rep + text[Clamp(position + length, |text|)..]
  }

  /** The text a match covers. */
  function Original(code: string, m: Match): string {
    if m.start <= m.end <= |code| then code[m.start..m.end] else ""
  }

  /** The initialised form of each match. */
  function Replacements(ms: seq<Match>): (rs: seq<string>)
    ensures |rs| == |ms|
  {
    seq(|ms|, k requires 0 <= k < |ms| => Replacement(ms[k]))
  }

  /** The text each match covers. */
  function Originals(code: string, ms: seq<Match>): (rs: seq<string>)
    ensures |rs| == |ms|
  {
    seq(|ms|, k requires 0 <= k < |ms| => Original(code, ms[k]))
  }

  /**
   * The text from `from` on with each of the successive spans `ms` replaced
   * by the string of `rs` at the same index (empty if the spans are out of
   * order).
   */
  function Weave(code: string, from: nat, ms: seq<Match>, rs: seq<string>): string
    requires from <= |code| && |rs| == |ms|
    decreases |ms|
  {
    if |ms| == 0 then code[from..]
    else if from <= ms[0].start <= ms[0].end <= |code| then
      code[from..ms[0].start] + rs[0] + Weave(code, ms[0].end, ms[1..], rs[1..])
    else ""
  }
}
