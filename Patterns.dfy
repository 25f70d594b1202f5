/**
 * The regular expressions of the analyzer and the fixer, each written out as
 * a dedicated scanner over the text. A scanner answers what the JavaScript
 * engine answers when it tries the expression at one offset: quantifiers
 * are tried in the engine's order (greedy ones longest first, lazy ones
 * shortest first) and the first combination that succeeds is the match.
 * `Exec` is `RegExp.prototype.exec` with the `g` flag (leftmost match at or
 * after `lastIndex`), and `AllMatches` is the `while ((m = re.exec(text)))`
 * loop, which resumes where the previous match ended.
 */
module Patterns {
  import opened Wrappers
  import opened Text

  /** One successful `exec`: `index`, `lastIndex` afterwards, capture groups 1 and 2. */
  datatype Match = Match(start: nat, end: nat, g1: string, g2: string)

  /** The expressions, named after what they look for. */
  datatype Pattern =
    | Declaration     // codeAnalyzer.js:41, `let|const|var` then a name
    | Identifier      // codeAnalyzer.js:42, an identifier token between word boundaries
    | ReturnThenCode  // codeAnalyzer.js:75, `return` then code before a closing `}` line
    | ThrowThenCode   // codeAnalyzer.js:76, `throw ...` then code before a closing `}` line
    | ForEver         // codeAnalyzer.js:97, `for(;;)`
    | WhileTrue       // codeAnalyzer.js:98, `while(true)`
    | EventListener   // codeAnalyzer.js:115, `addEventListener('event', handler)`
    | NewXhr          // codeAnalyzer.js:116, `new XMLHttpRequest()`
    | TimerCall       // codeAnalyzer.js:117, `setInterval(` or `setTimeout(`
    | FetchCall       // codeAnalyzer.js:152, `fetch(`
    | NewPromise      // codeAnalyzer.js:153, `new Promise(`
    | AsyncWord       // codeAnalyzer.js:154, the word `async`
    | CatchCall       // codeAnalyzer.js:165, `catch(`
    | TryCatch        // codeAnalyzer.js:166 and autoFixer.js:78, `try {...} catch(`
    | ArrayAccess     // codeAnalyzer.js:178, `name[index]`
    | FunctionDecl    // codeAnalyzer.js:200, `function name(...) {body}`
    | Accumulator     // autoFixer.js:202, `let x; x +=`
    | EventHeader     // autoFixer.js:135, the event-listener comment block
    | LeakHeader      // autoFixer.js:160, the event-listener or resource comment block

  /** The result, if any, is a non-empty match that starts at `p`. */
  predicate Within(r: Option<Match>, text: string, p: nat) {
    r.Some? ==> r.value.start == p && p < r.value.end <= |text|
  }

  predicate WordAt(text: string, i: int) {
    0 <= i < |text| && IsWordChar(text[i])
  }

  /** `\b` at offset `i`. */
  predicate Boundary(text: string, i: nat) {
    WordAt(text, i - 1) != WordAt(text, i)
  }

  /** Blanks from `i`, then the character `c`: the offset just after `c`. */
  function SkipTo(text: string, i: nat, c: char): (r: Option<nat>)
    requires i <= |text|
    ensures r.Some? ==> i < r.value <= |text| && text[r.value - 1] == c
  {
    var j := SpaceEnd(text, i);
    if j < |text| && text[j] == c then Some(j + 1) else None
  }

  /** Blanks from `i`, then the word `w`: the offset just after `w`. */
  function SkipToWord(text: string, i: nat, w: string): (r: Option<nat>)
    requires i <= |text| && |w| > 0
    ensures r.Some? ==> i < r.value <= |text|
  {
    var j := SpaceEnd(text, i);
    if At(text, j, w) then Some(j + |w|) else None
  }

  // ---------------------------------------------------------------------
  // Declarations and identifiers (codeAnalyzer.js:41-42)

  /** A word boundary, `let`, `const` or `var`, blanks, and the longest word that follows. */
  function DeclarationAt(text: string, p: nat): (r: Option<Match>)
    requires p <= |text|
    ensures Within(r, text, p)
    ensures r.Some? ==> r.value.g2 != [] && forall k :: 0 <= k < |r.value.g2| ==> IsWordChar(r.value.g2[k])
  {
    var kw := if At(text, p, "let") then "let" else if At(text, p, "const") then "const"
              else if At(text, p, "var") then "var" else "";
    if kw == "" || !Boundary(text, p) then None
    else
      var a := SpaceEnd(text, p + |kw|);
      if a == p + |kw| then None
      else
        // the word is the longest run, so the closing `\b` always holds after it
        var e := WordEnd(text, a);
        if e == a then None else Some(Match(p, e, kw, text[a..e]))
  }

  predicate IsIdentifierStart(c: char) {
    ('a' <= c <= 'z') || ('A' <= c <= 'Z') || c == '_' || c == '$'
  }

  predicate IsIdentifierPart(c: char) {
    IsIdentifierStart(c) || IsDigit(c)
  }

  function IdentifierPartEnd(text: string, i: nat): (j: nat)
    requires i <= |text|
    ensures i <= j <= |text|
    decreases |text| - i
  {
    if i < |text| && IsIdentifierPart(text[i]) then IdentifierPartEnd(text, i + 1) else i
  }

  /** The last offset in `[lo, j]` that is a word boundary: the greedy tail giving back characters. */
  function LastBoundary(text: string, lo: nat, j: nat): (r: Option<nat>)
    ensures r.Some? ==> lo <= r.value <= j && Boundary(text, r.value)
    decreases j
  {
    if j < lo then None
    else if Boundary(text, j) then Some(j)
    else if j == 0 then None
    else LastBoundary(text, lo, j - 1)
  }

  /**
   * A boundary, an identifier start (`$` included), then the longest run of
   * identifier characters that still ends on a boundary. `$` is not a word
   * character, so the tail can give characters back.
   */
  function IdentifierAt(text: string, p: nat): (r: Option<Match>)
    requires p <= |text|
    ensures Within(r, text, p)
    ensures r.Some? ==> r.value.g1 == text[p..r.value.end]
  {
    if p < |text| && Boundary(text, p) && IsIdentifierStart(text[p]) then
      var e := LastBoundary(text, p + 1, IdentifierPartEnd(text, p + 1));
      if e.Some? then Some(Match(p, e.value, text[p..e.value], "")) else None
    else None
  }

  // ---------------------------------------------------------------------
  // Code after `return` / `throw` (codeAnalyzer.js:75-76, `s` flag: `.`
  // matches line breaks too)

  /** The look-ahead: a line break at `t`, blanks, then `}`. */
  predicate ClosesBlock(text: string, t: nat) {
    t < |text| && text[t] == '\n' && (var e := SpaceEnd(text, t + 1); e < |text| && text[e] == '}')
  }

  /** The captured code is non-empty, ends where the look-ahead holds, and comes after `start`. */
  predicate ClosedBody(text: string, m: Match) {
    && |m.g1| > 0
    && m.start < m.end - |m.g1|
    && m.end <= |text|
    && m.g1 == text[m.end - |m.g1|..m.end]
    && ClosesBlock(text, m.end)
  }

  /** The first offset at or after `t` where the look-ahead holds. */
  function FirstClose(text: string, t: nat): (r: Option<nat>)
    ensures r.Some? ==> t <= r.value < |text| && ClosesBlock(text, r.value)
    ensures r.Some? ==> forall k :: t <= k < r.value ==> !ClosesBlock(text, k)
    decreases |text| - t
  {
    if t >= |text| then None
    else if ClosesBlock(text, t) then Some(t)
    else FirstClose(text, t + 1)
  }

  /** `(.+?)` then the look-ahead: the shortest non-empty code from `b`. */
  function CodeFrom(text: string, p: nat, b: nat): (r: Option<Match>)
    requires p < b
    ensures Within(r, text, p)
    ensures r.Some? ==> ClosedBody(text, r.value)
  {
    var t :- FirstClose(text, b + 1);
    Some(Match(p, t, text[b..t], ""))
  }

  /** `\s*` before the code: from the longest run of blanks (`j`) down to none (`lo`). */
  function CodeAfterBlanks(text: string, p: nat, j: nat, lo: nat): (r: Option<Match>)
    requires p < lo <= j <= |text|
    ensures Within(r, text, p)
    ensures r.Some? ==> ClosedBody(text, r.value)
    decreases j - lo
  {
    var r := CodeFrom(text, p, j);
    if r.Some? then r else if j == lo then None else CodeAfterBlanks(text, p, j - 1, lo)
  }

  /** `\s*\n\s*(.+?)...`: blanks tried longest first, then a line break at `j`. */
  function LineBreakAfterBlanks(text: string, p: nat, j: nat, lo: nat): (r: Option<Match>)
    requires p < lo <= j <= |text|
    ensures Within(r, text, p)
    ensures r.Some? ==> ClosedBody(text, r.value)
    decreases j - lo
  {
    var r := if j < |text| && text[j] == '\n' then CodeAfterBlanks(text, p, SpaceEnd(text, j + 1), j + 1) else None;
    if r.Some? then r else if j == lo then None else LineBreakAfterBlanks(text, p, j - 1, lo)
  }

  /** `;?\s*\n\s*(.+?)(?=\n\s*[}])` from `q`: with the semicolon first, then without. */
  function SemicolonTail(text: string, p: nat, q: nat): (r: Option<Match>)
    requires p < q <= |text|
    ensures Within(r, text, p)
    ensures r.Some? ==> ClosedBody(text, r.value)
  {
    var withSemicolon :=
      if q < |text| && text[q] == ';' then LineBreakAfterBlanks(text, p, SpaceEnd(text, q + 1), q + 1) else None;
    if withSemicolon.Some? then withSemicolon else LineBreakAfterBlanks(text, p, SpaceEnd(text, q), q)
  }

  /** The blanks after `return`, longest first. */
  function ReturnBlanks(text: string, p: nat, j: nat, lo: nat): (r: Option<Match>)
    requires p < lo <= j <= |text|
    ensures Within(r, text, p)
    ensures r.Some? ==> ClosedBody(text, r.value)
    decreases j - lo
  {
    var r := SemicolonTail(text, p, j);
    if r.Some? then r else if j == lo then None else ReturnBlanks(text, p, j - 1, lo)
  }

  function ReturnAt(text: string, p: nat): (r: Option<Match>)
    requires p <= |text|
    ensures Within(r, text, p)
    ensures r.Some? ==> ClosedBody(text, r.value) && At(text, p, "return")
  {
    if !At(text, p, "return") then None
    else ReturnBlanks(text, p, SpaceEnd(text, p + 6), p + 6)
  }

  /** The operand of `throw` (`.+?`): `text[..e]` ends it, shortest first. */
  function ThrowOperand(text: string, p: nat, e: nat): (r: Option<Match>)
    requires p < e
    ensures Within(r, text, p)
    ensures r.Some? ==> ClosedBody(text, r.value)
    decreases |text| + 1 - e
  {
    if e > |text| then None
    else
      var r := SemicolonTail(text, p, e);
      if r.Some? then r else ThrowOperand(text, p, e + 1)
  }

  /** The blanks after `throw` (`\s+`), longest first, at least one. */
  function ThrowBlanks(text: string, p: nat, j: nat, lo: nat): (r: Option<Match>)
    requires p < lo <= j <= |text|
    ensures Within(r, text, p)
    ensures r.Some? ==> ClosedBody(text, r.value)
    decreases j - lo
  {
    var r := ThrowOperand(text, p, j + 1);
    if r.Some? then r else if j == lo then None else ThrowBlanks(text, p, j - 1, lo)
  }

  function ThrowAt(text: string, p: nat): (r: Option<Match>)
    requires p <= |text|
    ensures Within(r, text, p)
    ensures r.Some? ==> ClosedBody(text, r.value) && At(text, p, "throw")
  {
    if !(At(text, p, "throw") && p + 5 < |text| && IsSpace(text[p + 5])) then None
    else ThrowBlanks(text, p, SpaceEnd(text, p + 5), p + 6)
  }

  // ---------------------------------------------------------------------
  // Loops (codeAnalyzer.js:97-98)

  /** `for`, then `(`, `;`, `;`, `)` with blanks allowed before each. */
  function ForEverAt(text: string, p: nat): (r: Option<Match>)
    requires p <= |text|
    ensures Within(r, text, p)
  {
    if !At(text, p, "for") then None
    else
      var a :- SkipTo(text, p + 3, '(');
      var b :- SkipTo(text, a, ';');
      var c :- SkipTo(text, b, ';');
      var d :- SkipTo(text, c, ')');
      Some(Match(p, d, "", ""))
  }

  /** `while`, then `(`, `true`, `)` with blanks allowed before each. */
  function WhileTrueAt(text: string, p: nat): (r: Option<Match>)
    requires p <= |text|
    ensures Within(r, text, p)
  {
    if !At(text, p, "while") then None
    else
      var a :- SkipTo(text, p + 5, '(');
      var b :- SkipToWord(text, a, "true");
      var c :- SkipTo(text, b, ')');
      Some(Match(p, c, "", ""))
  }

  // ---------------------------------------------------------------------
  // Resources (codeAnalyzer.js:115-117)

  predicate IsQuote(c: char) {
    c == '\'' || c == '"'
  }

  /** `addEventListener(`, a quoted word (either quote on either side), `,`, a word, `)`. */
  function EventListenerAt(text: string, p: nat): (r: Option<Match>)
    requires p <= |text|
    ensures Within(r, text, p)
    ensures r.Some? ==> r.value.g1 != [] && r.value.g2 != []
    ensures r.Some? ==> forall k :: 0 <= k < |r.value.g1| ==> IsWordChar(r.value.g1[k])
    ensures r.Some? ==> forall k :: 0 <= k < |r.value.g2| ==> IsWordChar(r.value.g2[k])
  {
    if !At(text, p, "addEventListener") then None
    else
      var a :- SkipTo(text, p + 16, '(');
      var q := SpaceEnd(text, a);
      if !(q < |text| && IsQuote(text[q])) then None
      else
        var e := WordEnd(text, q + 1);
        if e == q + 1 || !(e < |text| && IsQuote(text[e])) then None
        else
          var b :- SkipTo(text, e + 1, ',');
          var h := SpaceEnd(text, b);
          var he := WordEnd(text, h);
          if he == h then None
          else
            var d :- SkipTo(text, he, ')');
            Some(Match(p, d, text[q + 1..e], text[h..he]))
  }

  /** `new`, at least one blank, `XMLHttpRequest`, `(`, `)`. */
  function NewXhrAt(text: string, p: nat): (r: Option<Match>)
    requires p <= |text|
    ensures Within(r, text, p)
  {
    if !At(text, p, "new") then None
    else
      var j := SpaceEnd(text, p + 3);
      if j == p + 3 || !At(text, j, "XMLHttpRequest") then None
      else
        var a :- SkipTo(text, j + 14, '(');
        var b :- SkipTo(text, a, ')');
        Some(Match(p, b, "", ""))
  }

  /** `setInterval` or `setTimeout` (captured), then `(`. */
  function TimerCallAt(text: string, p: nat): (r: Option<Match>)
    requires p <= |text|
    ensures Within(r, text, p)
    ensures r.Some? ==> r.value.g1 == "setInterval" || r.value.g1 == "setTimeout"
  {
    var name := if At(text, p, "setInterval") then "setInterval"
                else if At(text, p, "setTimeout") then "setTimeout" else "";
    if name == "" then None
    else
      var a :- SkipTo(text, p + |name|, '(');
      Some(Match(p, a, name, ""))
  }

  // ---------------------------------------------------------------------
  // Asynchronous code and error handling (codeAnalyzer.js:152-166)

  function FetchCallAt(text: string, p: nat): (r: Option<Match>)
    requires p <= |text|
    ensures Within(r, text, p)
  {
    if !At(text, p, "fetch") then None
    else
      var a :- SkipTo(text, p + 5, '(');
      Some(Match(p, a, "", ""))
  }

  function NewPromiseAt(text: string, p: nat): (r: Option<Match>)
    requires p <= |text|
    ensures Within(r, text, p)
  {
    if !At(text, p, "new") then None
    else
      var j := SpaceEnd(text, p + 3);
      if j == p + 3 || !At(text, j, "Promise") then None
      else
        var a :- SkipTo(text, j + 7, '(');
        Some(Match(p, a, "", ""))
  }

  function AsyncWordAt(text: string, p: nat): (r: Option<Match>)
    requires p <= |text|
    ensures Within(r, text, p)
  {
    if Boundary(text, p) && At(text, p, "async") && Boundary(text, p + 5) then Some(Match(p, p + 5, "", ""))
    else None
  }

  function CatchCallAt(text: string, p: nat): (r: Option<Match>)
    requires p <= |text|
    ensures Within(r, text, p)
  {
    if !At(text, p, "catch") then None
    else
      var a :- SkipTo(text, p + 5, '(');
      Some(Match(p, a, "", ""))
  }

  /** The lazy `[\s\S]*?}`: the first `}` at or after `c` that blanks and `catch(` follow. */
  function BraceThenCatch(text: string, c: nat): (r: Option<nat>)
    requires c <= |text|
    ensures r.Some? ==> c < r.value <= |text|
    ensures r.Some? ==> exists k :: c <= k < |text| && CatchCallAt(text, k).Some?
    decreases |text| - c
  {
    if c == |text| then None
    else
      var k := SpaceEnd(text, c + 1);
      var catchCall := CatchCallAt(text, k);
      if text[c] == '}' && catchCall.Some? then Some(catchCall.value.end)
      else BraceThenCatch(text, c + 1)
  }

  /** `try`, `{`, anything (shortest first), `}`, `catch(`. */
  function TryCatchAt(text: string, p: nat): (r: Option<Match>)
    requires p <= |text|
    ensures Within(r, text, p)
    ensures r.Some? ==> exists k :: p <= k < |text| && CatchCallAt(text, k).Some?
  {
    if !At(text, p, "try") then None
    else
      var o :- SkipTo(text, p + 3, '{');
      var e :- BraceThenCatch(text, o);
      Some(Match(p, e, "", ""))
  }

  // ---------------------------------------------------------------------
  // Array subscripts and function bodies (codeAnalyzer.js:178, 200)

  /** The lazy `(.+?)\]` without `s`: the first `]` at or after `j`, on the same line. */
  function IndexClose(text: string, j: nat): (r: Option<nat>)
    requires j <= |text|
    ensures r.Some? ==> j <= r.value < |text| && text[r.value] == ']'
    ensures r.Some? ==> forall k :: j <= k < r.value ==> text[k] != ']' && !IsLineTerminator(text[k])
    decreases |text| - j
  {
    if j == |text| then None
    else if text[j] == ']' then Some(j)
    else if IsLineTerminator(text[j]) then None
    else IndexClose(text, j + 1)
  }

  /**
   * A run of word characters reaching `[` (the run may start inside a longer
   * word), one character that is not a line break, then everything up to the
   * first `]` on the same line.
   */
  function ArrayAccessAt(text: string, p: nat): (r: Option<Match>)
    requires p <= |text|
    ensures Within(r, text, p)
    ensures r.Some? ==> |r.value.g2| > 0 && forall k :: 0 <= k < |r.value.g2| ==> !IsLineTerminator(r.value.g2[k])
    ensures r.Some? ==> forall k :: 1 <= k < |r.value.g2| ==> r.value.g2[k] != ']'
    ensures r.Some? ==> text[p..r.value.end] == r.value.g1 + "[" + r.value.g2 + "]"
  {
    if !(p < |text| && IsWordChar(text[p])) then None
    else
      var e := WordEnd(text, p);
      if !(e + 1 < |text| && text[e] == '[' && !IsLineTerminator(text[e + 1])) then None
      else
        var c :- IndexClose(text, e + 2);
        ArrayParts(text, p, e, c, text[e + 1..c]);
        Some(Match(p, c + 1, text[p..e], text[e + 1..c]))
  }

  /** The text of a subscript match, split into name, brackets and index. */
  lemma ArrayParts(text: string, p: nat, e: nat, c: nat, index: string)
    requires p <= e && e + 2 <= c < |text| && text[e] == '[' && text[c] == ']'
    requires !IsLineTerminator(text[e + 1])
    requires forall k :: e + 2 <= k < c ==> text[k] != ']' && !IsLineTerminator(text[k])
    requires index == text[e + 1..c]
    ensures text[p..c + 1] == text[p..e] + "[" + index + "]"
    ensures forall k :: 0 <= k < |index| ==> !IsLineTerminator(index[k])
    ensures forall k :: 1 <= k < |index| ==> index[k] != ']'
  {
    assert text[p..c + 1] == text[p..e] + text[e..c + 1];
    assert text[e..c + 1] == [text[e]] + text[e + 1..c] + [text[c]];
  }

  /**
   * `function`, blanks, a name, `(`, anything but `)`, `)`, `{`, then a
   * non-empty body running to the first `}`.
   */
  function FunctionDeclAt(text: string, p: nat): (r: Option<Match>)
    requires p <= |text|
    ensures Within(r, text, p)
    ensures r.Some? ==> '}' !in r.value.g2
  {
    if !At(text, p, "function") then None
    else
      var a := SpaceEnd(text, p + 8);
      var n := WordEnd(text, a);
      if a == p + 8 || n == a then None
      else
        var b :- SkipTo(text, n, '(');
        var close := FindChar(text, b, ')');
        if close == |text| then None
        else
          var o :- SkipTo(text, close + 1, '{');
          var e := FindChar(text, o, '}');
          if e == o || e == |text| then None
          else Some(Match(p, e + 1, text[a..n], text[o..e]))
  }

  // ---------------------------------------------------------------------
  // The accumulator rewrite (autoFixer.js:202)

  /**
   * `let` or `var` (captured), blanks, a name (captured), `;`, blanks, the
   * same name again, blanks, `+=`. Only blanks may separate the declaration
   * from the compound assignment.
   */
  function AccumulatorAt(text: string, p: nat): (r: Option<Match>)
    requires p <= |text|
    ensures Within(r, text, p)
    ensures r.Some? ==> (r.value.g1 == "let" || r.value.g1 == "var") && |r.value.g2| > 0
    ensures r.Some? ==> exists gap, gap2, gap3 :: (|gap| > 0 && IsBlank(gap) && IsBlank(gap2) && IsBlank(gap3)
      && text[p..r.value.end] == AccumulatorText(r.value.g1, gap, r.value.g2, gap2, gap3))
  {
    var kw := if At(text, p, "let") then "let" else if At(text, p, "var") then "var" else "";
    if kw == "" then None
    else
      var a := SpaceEnd(text, p + 3);
      var n := WordEnd(text, a);
      if a == p + 3 || n == a || !(n < |text| && text[n] == ';') then None
      else AccumulatorUse(text, p, kw, a, n)
  }

  /** After `let x;` (the keyword at `p`, the name from `a` to `n`): blanks, `x`, blanks, `+=`. */
  function AccumulatorUse(text: string, p: nat, kw: string, a: nat, n: nat): (r: Option<Match>)
    requires (kw == "let" || kw == "var") && At(text, p, kw)
    requires p + 3 < a < n < |text| && text[n] == ';' && IsBlank(text[p + 3..a])
    ensures Within(r, text, p)
    ensures r.Some? ==> r.value.g1 == kw && r.value.g2 == text[a..n]
    ensures r.Some? ==> exists gap, gap2, gap3 :: (|gap| > 0 && IsBlank(gap) && IsBlank(gap2) && IsBlank(gap3)
      && text[p..r.value.end] == AccumulatorText(kw, gap, r.value.g2, gap2, gap3))
  {
    var name := text[a..n];
    var f := SpaceEnd(text, n + 1);
    if !At(text, f, name) then None
    else
      var g := SpaceEnd(text, f + |name|);
      if !At(text, g, "+=") then None
      else
        ShapeFromParts(text, p, a, n, f, g, kw, name);
        assert IsBlank(text[n + 1..f]) && IsBlank(text[f + |name|..g]);
        Some(Match(p, g + 2, kw, name))
  }

  /** `let`/`var`, blanks, the name, `;`, blanks, the name again, blanks, `+=`. */
  function AccumulatorText(kw: string, gap: string, name: string, gap2: string, gap3: string): string {
    kw + gap + name + ";" + gap2 + name + gap3 + "+="
  }

  /** Adjacent slices join. */
  lemma SliceJoin(s: string, i: nat, j: nat, k: nat)
    requires i <= j <= k <= |s|
    ensures s[i..k] == s[i..j] + s[j..k]
  {
  }

  /** A text cut at the scanner's offsets is a declaration followed by its `+=`. */
  lemma ShapeFromParts(text: string, p: nat, a: nat, n: nat, f: nat, g: nat, kw: string, name: string)
    requires n == a + |name|
    requires |kw| == 3 && p + 3 <= a && a + |name| < f && f + |name| <= g
    requires At(text, p, kw) && At(text, a, name) && At(text, n, ";") && At(text, f, name) && At(text, g, "+=")
    ensures text[p..g + 2] == AccumulatorText(kw, text[p + 3..a], name, text[n + 1..f], text[f + |name|..g])
  {
    SliceJoin(text, p, p + 3, a);
    var t := kw + text[p + 3..a];
    assert text[p..a] == t;
    SliceJoin(text, p, a, n);
    t := t + name;
    assert text[p..n] == t;
    SliceJoin(text, p, n, n + 1);
    t := t + ";";
    assert text[p..n + 1] == t;
    SliceJoin(text, p, n + 1, f);
    t := t + text[n + 1..f];
    assert text[p..f] == t;
    SliceJoin(text, p, f, f + |name|);
    t := t + name;
    assert text[p..f + |name|] == t;
    SliceJoin(text, p, f + |name|, g);
    t := t + text[f + |name|..g];
    assert text[p..g] == t;
    SliceJoin(text, p, g, g + 2);
  }

  // ---------------------------------------------------------------------
  // The leak comment blocks the fixer writes and later searches for
  // (autoFixer.js:110-111, 127-128, 135, 160)

  const FoundPrefix := "// ULTRA-DEBUGGER: Found "
  const EventKind := "event listener"
  const ResourceKind := "resource"
  const LeaksTodo := " leaks\n// TODO: "
  const EventTodo := "Ensure event listeners are properly removed to prevent memory leaks"
  const ResourceTodo := "Ensure resources are properly released"

  /** The fixed text after the count in a comment block of the given kind and TODO line. */
  function LeakTail(kind: string, todo: string): string {
    " potential " + kind + LeaksTodo + todo + "\n"
  }

  /** The fixed text after the count in an event-listener block. */
  function EventTail(): string {
    LeakTail(EventKind, EventTodo)
  }

  /** `// ULTRA-DEBUGGER: Found <digits>` and the event-listener tail. */
  function EventHeaderAt(text: string, p: nat): (r: Option<Match>)
    requires p <= |text|
    ensures Within(r, text, p)
  {
    if !At(text, p, FoundPrefix) then None
    else
      var d := DigitEnd(text, p + |FoundPrefix|);
      if d == p + |FoundPrefix| || !At(text, d, EventTail()) then None
      else Some(Match(p, d + |EventTail()|, "", ""))
  }

  /** The end of the first of two alternatives that occurs at `i`, or `i` if neither does. */
  function EitherAt(text: string, i: nat, first: string, second: string): (j: nat)
    ensures j == i || j == i + |first| || j == i + |second|
    ensures j != i ==> j <= |text|
  {
    if |first| > 0 && At(text, i, first) then i + |first|
    else if |second| > 0 && At(text, i, second) then i + |second|
    else i
  }

  /**
   * `// ULTRA-DEBUGGER: Found <digits> potential `, `event listener` or
   * `resource`, ` leaks`, a line break, `// TODO: `, either TODO sentence
   * (in any combination with the kind), and a line break.
   */
  function LeakHeaderAt(text: string, p: nat): (r: Option<Match>)
    requires p <= |text|
    ensures Within(r, text, p)
  {
    if !At(text, p, FoundPrefix) then None
    else
      var d := DigitEnd(text, p + |FoundPrefix|);
      if d == p + |FoundPrefix| || !At(text, d, " potential ") then None
      else
        var e :- LeakBlockRest(text, d + 11);
        Some(Match(p, e, "", ""))
  }

  /** The kind, ` leaks`, the TODO line and its line break at `k`: the offset after them. */
  function LeakBlockRest(text: string, k: nat): (r: Option<nat>)
    ensures r.Some? ==> k < r.value <= |text|
  {
    var kindEnd := EitherAt(text, k, EventKind, ResourceKind);
    if kindEnd == k || !At(text, kindEnd, LeaksTodo) then None
    else
      var t := kindEnd + |LeaksTodo|;
      var todoEnd := EitherAt(text, t, EventTodo, ResourceTodo);
      if todoEnd == t || !At(text, todoEnd, "\n") then None
      else Some(todoEnd + 1)
  }

  // ---------------------------------------------------------------------
  // The engine's search

  /** A scanner tries one expression at one offset of a text. */
  type Scanner = (string, nat) --> Option<Match>

  /** The scanner of each expression. */
  function ScannerOf(pat: Pattern): Scanner {
    match pat
    case Declaration => DeclarationAt
    case Identifier => IdentifierAt
    case ReturnThenCode => ReturnAt
    case ThrowThenCode => ThrowAt
    case ForEver => ForEverAt
    case WhileTrue => WhileTrueAt
    case EventListener => EventListenerAt
    case NewXhr => NewXhrAt
    case TimerCall => TimerCallAt
    case FetchCall => FetchCallAt
    case NewPromise => NewPromiseAt
    case AsyncWord => AsyncWordAt
    case CatchCall => CatchCallAt
    case TryCatch => TryCatchAt
    case ArrayAccess => ArrayAccessAt
    case FunctionDecl => FunctionDeclAt
    case Accumulator => AccumulatorAt
    case EventHeader => EventHeaderAt
    case LeakHeader => LeakHeaderAt
  }

  /** The match of `pat` tried at exactly offset `p`. */
  function MatchAt(pat: Pattern, text: string, p: nat): (r: Option<Match>)
    requires p <= |text|
    ensures Within(r, text, p)
  {
    ScannerOf(pat)(text, p)
  }

  /** `exec` from `lastIndex == from`: the leftmost match starting at or after `from`. */
  function Exec(pat: Pattern, text: string, from: nat): (r: Option<Match>)
    ensures r.Some? ==> from <= r.value.start < r.value.end <= |text| && MatchAt(pat, text, r.value.start) == r
    ensures r.Some? ==> forall q :: from <= q < r.value.start ==> MatchAt(pat, text, q).None?
    ensures r.None? ==> forall q :: from <= q <= |text| ==> MatchAt(pat, text, q).None?
    decreases |text| - from
  {
    if from >= |text| then None
    else
      var m := MatchAt(pat, text, from);
      if m.Some? then m else Exec(pat, text, from + 1)
  }

  /** Every match the `exec` loop reports, resuming each search where the last match ended. */
  function AllMatches(pat: Pattern, text: string, from: nat): (ms: seq<Match>)
    decreases |text| - from
  {
    match Exec(pat, text, from)
    case None => []
    case Some(m) => [m] + AllMatches(pat, text, m.end)
  }

  /** A match at any offset makes `test` succeed. */
  lemma MatchOccurs(pat: Pattern, text: string, p: nat)
    requires p <= |text| && MatchAt(pat, text, p).Some?
    ensures Occurs(pat, text)
  {
    OccursIff(pat, text);
  }

  /**
   * One turn of the `exec` loop: when `done` are the matches reported so far
   * and the next search starts at `from`, reporting the next match moves it
   * from the matches still to come to those reported.
   */
  lemma ScanStep(pat: Pattern, text: string, done: seq<Match>, from: nat)
    ensures Exec(pat, text, from).None? ==> done + AllMatches(pat, text, from) == done
    ensures Exec(pat, text, from).Some? ==>
      done + AllMatches(pat, text, from) == (done + [Exec(pat, text, from).value]) + AllMatches(pat, text, Exec(pat, text, from).value.end)
  {
    if Exec(pat, text, from).None? {
      assert done + [] == done;
    }
  }

  /** `re.test(text)` on a fresh expression. */
  predicate Occurs(pat: Pattern, text: string) {
    Exec(pat, text, 0).Some?
  }

  /** `test` succeeds exactly when the expression matches at some offset. */
  lemma OccursIff(pat: Pattern, text: string)
    ensures Occurs(pat, text) <==> exists p :: 0 <= p <= |text| && MatchAt(pat, text, p).Some?
  {
  }

  /** `m` is a genuine match of `pat` starting at or after `from`. */
  predicate IsMatchFrom(pat: Pattern, text: string, from: nat, m: Match) {
    from <= m.start < m.end <= |text| && MatchAt(pat, text, m.start) == Some(m)
  }

  /** Every element is a genuine match from `from`, in ascending order and without overlap. */
  predicate OrderedMatches(pat: Pattern, text: string, from: nat, ms: seq<Match>) {
    && (forall i :: 0 <= i < |ms| ==> IsMatchFrom(pat, text, from, ms[i]))
    && (forall i, j :: 0 <= i < j < |ms| ==> ms[i].end <= ms[j].start)
  }

  /** The loop reports genuine matches, in ascending order and without overlap. */
  lemma {:induction false} AllMatchesOrdered(pat: Pattern, text: string, from: nat)
    ensures OrderedMatches(pat, text, from, AllMatches(pat, text, from))
    decreases |text| - from
  {
    var r := Exec(pat, text, from);
    if r.Some? {
      var m := r.value;
      var rest := AllMatches(pat, text, m.end);
      AllMatchesOrdered(pat, text, m.end);
      var ms := [m] + rest;
      assert AllMatches(pat, text, from) == ms;
      assert IsMatchFrom(pat, text, from, m);
      forall i | 0 <= i < |ms|
        ensures IsMatchFrom(pat, text, from, ms[i])
      {
        if i > 0 {
          assert ms[i] == rest[i - 1];
          assert IsMatchFrom(pat, text, m.end, rest[i - 1]);
        }
      }
      forall i, j | 0 <= i < j < |ms|
        ensures ms[i].end <= ms[j].start
      {
        if i == 0 {
          assert IsMatchFrom(pat, text, m.end, rest[j - 1]);
        } else {
          assert rest[i - 1].end <= rest[j - 1].start;
        }
      }
      assert OrderedMatches(pat, text, from, ms);
    }
  }

  /** `exec` from `from` finds a match no later than any match at or after `from`. */
  lemma ExecLeftmost(pat: Pattern, text: string, from: nat, p: nat)
    requires from <= p <= |text| && MatchAt(pat, text, p).Some?
    ensures Exec(pat, text, from).Some? && Exec(pat, text, from).value.start <= p
  {
  }

  /** Every offset the loop skips over holds no match, so a match that starts in a gap is never missed. */
  lemma {:induction false} AllMatchesComplete(pat: Pattern, text: string, from: nat, p: nat)
    requires from <= p <= |text| && MatchAt(pat, text, p).Some?
    ensures exists i :: (0 <= i < |AllMatches(pat, text, from)| &&
      AllMatches(pat, text, from)[i].start <= p < AllMatches(pat, text, from)[i].end)
    decreases |text| - from
  {
    var ms := AllMatches(pat, text, from);
    ExecLeftmost(pat, text, from, p);
    var m := Exec(pat, text, from).value;
    var rest := AllMatches(pat, text, m.end);
    assert ms == [m] + rest;
    if p < m.end {
      assert ms[0].start <= p < ms[0].end;
    } else {
      AllMatchesComplete(pat, text, m.end, p);
      var i :| 0 <= i < |rest| && rest[i].start <= p < rest[i].end;
      assert ms[i + 1] == rest[i];
    }
  }
}
