/**
 * What the fixer's text passes do: the spliced comments can be taken out
 * again, the wrapper can be taken off again, the leak blocks land in a
 * fixed order, and the accumulator rewrite touches only its matches.
 */
module FixerProperties {
  import opened Wrappers
  import opened Text
  import opened Patterns
  import opened FixerText

  // ---------------------------------------------------------------------
  // Spliced comments (autoFixer.js:42-68)

  /** Splicing into a text and then appending, or appending and then splicing, agree. */
  lemma SplicedAppend(a: string, b: string, ps: seq<nat>, c: string)
    requires Ascending(ps) && Bounded(ps, |a|)
    ensures Spliced(a + b, ps, c) == Spliced(a, ps, c) + b
  {
    if |ps| > 0 {
      var n := |ps| - 1;
      assert (a + b)[..ps[n]] == a[..ps[n]];
      assert (a + b)[ps[n]..] == a[ps[n]..] + b;
    }
  }

  /** Each splice adds exactly one comment's length. */
  lemma {:induction false} SplicedLength(code: string, ps: seq<nat>, c: string)
    requires Ascending(ps) && Bounded(ps, |code|)
    ensures |Spliced(code, ps, c)| == |code| + |ps| * |c|
    decreases |ps|
  {
    if |ps| > 0 {
      var n := |ps| - 1;
      SplicedLength(code[..ps[n]], ps[..n], c);
      assert |ps| * |c| == n * |c| + |c|;
    }
  }

  /**
   * For offsets in order and within the text, the loop's insertions at
   * drifting offsets build the reference splice.
   */
  lemma {:induction false} InsertedSpliced(code: string, ps: seq<nat>, c: string)
    requires Ascending(ps) && Bounded(ps, |code|)
    ensures Inserted(code, ps, c) == Spliced(code, ps, c)
    decreases |ps|
  {
    if |ps| > 0 {
      var n := |ps| - 1;
      var init, last := ps[..n], ps[n];
      InsertedSpliced(code, init, c);
      var head, tail := code[..last], code[last..];
      assert code == head + tail;
      SplicedAppend(head, tail, init, c);
      SplicedLength(head, init, c);
      var x := Spliced(head, init, c);
      assert Inserted(code, ps, c) == InsertAt(x + tail, last + n * |c|, c);
      assert (x + tail)[..|x|] == x && (x + tail)[|x|..] == tail;
    }
  }

  /** The pieces of a cut, put back together, are the text. */
  lemma {:induction false} CutConcat(code: string, ps: seq<nat>)
    requires Ascending(ps) && Bounded(ps, |code|)
    ensures Concat(Cut(code, ps)) == code
    decreases |ps|
  {
    if |ps| > 0 {
      var n := |ps| - 1;
      var pieces := Cut(code, ps);
      CutConcat(code[..ps[n]], ps[..n]);
      assert pieces[..|pieces| - 1] == Cut(code[..ps[n]], ps[..n]);
      assert code == code[..ps[n]] + code[ps[n]..];
    }
  }

  /** The splice is the pieces of the cut with a comment between each two. */
  lemma {:induction false} SplicedInterleave(code: string, ps: seq<nat>, c: string)
    requires Ascending(ps) && Bounded(ps, |code|)
    ensures Spliced(code, ps, c) == Interleave(Cut(code, ps), c)
    decreases |ps|
  {
    if |ps| > 0 {
      var n := |ps| - 1;
      var pieces := Cut(code, ps);
      SplicedInterleave(code[..ps[n]], ps[..n], c);
      assert pieces[..|pieces| - 1] == Cut(code[..ps[n]], ps[..n]);
    }
  }

  lemma AtPrefix(a: string, b: string, i: nat, s: string)
    requires At(a, i, s)
    ensures At(a + b, i, s)
  {
    assert (a + b)[i..i + |s|] == a[i..i + |s|];
  }

  /** Where the `k`-th comment lands: its offset, shifted by the `k` comments before it. */
  function Slot(ps: seq<nat>, k: nat, c: string): nat
    requires k < |ps|
  {
    ps[k] + k * |c|
  }

  /** The `k`-th comment sits at its offset shifted by the `k` comments before it. */
  lemma {:induction false} SplicedCommentAt(code: string, ps: seq<nat>, c: string, k: nat)
    requires Ascending(ps) && Bounded(ps, |code|) && k < |ps|
    ensures At(Spliced(code, ps, c), Slot(ps, k, c), c)
    decreases |ps|
  {
    var n := |ps| - 1;
    var x := Spliced(code[..ps[n]], ps[..n], c);
    SplicedLength(code[..ps[n]], ps[..n], c);
    var s := Spliced(code, ps, c);
    assert s == x + (c + code[ps[n]..]);
    if k < n {
      SplicedCommentAt(code[..ps[n]], ps[..n], c, k);
      assert Slot(ps[..n], k, c) == Slot(ps, k, c);
      AtPrefix(x, c + code[ps[n]..], Slot(ps, k, c), c);
    } else {
      assert s[|x|..|x| + |c|] == c;
    }
  }

  /**
   * Taking the comments out again: for offsets in order and within the
   * text, the loop's output is the text's pieces between the offsets with a
   * comment between each two, the pieces put together are the input, and
   * the `k`-th comment stands at the `k`-th offset plus `k` comment lengths.
   */
  lemma InsertedRoundTrip(code: string, ps: seq<nat>, c: string)
    requires Ascending(ps) && Bounded(ps, |code|)
    ensures Inserted(code, ps, c) == Interleave(Cut(code, ps), c)
    ensures Concat(Cut(code, ps)) == code
    ensures forall k :: 0 <= k < |ps| ==> At(Inserted(code, ps, c), Slot(ps, k, c), c)
  {
    InsertedSpliced(code, ps, c);
    SplicedInterleave(code, ps, c);
    CutConcat(code, ps);
    SplicedCommentsAt(code, ps, c);
  }

  lemma SplicedCommentsAt(code: string, ps: seq<nat>, c: string)
    requires Ascending(ps) && Bounded(ps, |code|)
    ensures forall k :: 0 <= k < |ps| ==> At(Spliced(code, ps, c), Slot(ps, k, c), c)
  {
    forall k: nat | k < |ps|
      ensures At(Spliced(code, ps, c), Slot(ps, k, c), c)
    {
      SplicedCommentAt(code, ps, c, k);
    }
  }

  /**
   * Two offsets out of order: the second comment goes in at its offset
   * shifted by one comment length, so it does not stand at its offset when
   * the text there does not begin like the comment.
   */
  lemma InsertedOutOfOrder(code: string, r: nat, t: nat, c: string)
    requires t < r <= |code| && |c| > 0 && code[t] != c[0]
    ensures !At(Inserted(code, [r, t], c), t, c)
    ensures At(Inserted(code, [r, t], c), t + |c|, c)
  {
    var first := code[..r] + c + code[r..];
    assert Inserted(code, [r], c) == first by {
      assert [r][..0] == [];
      assert InsertAt(code, r + 0 * |c|, c) == first;
    }
    var out := first[..t + |c|] + c + first[t + |c|..];
    assert Inserted(code, [r, t], c) == out by {
      assert [r, t][..1] == [r];
      assert InsertAt(first, t + 1 * |c|, c) == out;
    }
    assert out[t] == first[t] == code[t];
    assert out[t + |c|..t + |c| + |c|] == c;
  }

  // ---------------------------------------------------------------------
  // The try/catch wrapper (autoFixer.js:80-86)

  /** Taking the wrapper off again gives back the code, line breaks and all. */
  lemma UnwrapWrapped(code: string)
    ensures Unwrapped(Wrapped(code)) == Some(code)
  {
    var lines := Split(code, '\n');
    var indented := Indent(lines);
    var body := Join(indented, '\n');
    var w := Wrapped(code);
    assert w == WrapperHeader + body + WrapperFooter;
    assert w[..|WrapperHeader|] == WrapperHeader;
    assert w[|w| - |WrapperFooter|..] == WrapperFooter;
    assert w[|WrapperHeader|..|w| - |WrapperFooter|] == body;
    SplitPiecesFree(code, '\n');
    forall k | 0 <= k < |indented|
      ensures '\n' !in indented[k]
    {
      assert indented[k] == "  " + lines[k];
    }
    SplitJoin(indented, '\n');
    forall k | 0 <= k < |indented|
      ensures At(indented[k], 0, "  ")
    {
      assert indented[k][0..2] == "  ";
    }
    assert Dedent(indented) == lines;
    JoinSplit(code, '\n');
  }

  // ---------------------------------------------------------------------
  // Leak blocks (autoFixer.js:100-172)

  lemma AtJoin(a: string, s: string, b: string)
    ensures At(a + s + b, |a|, s)
  {
    assert (a + s + b)[|a|..|a| + |s|] == s;
  }

  lemma NotAtWhere(text: string, i: nat, s: string, k: nat)
    requires k < |s| && i + k < |text| && text[i + k] != s[k]
    ensures !At(text, i, s)
  {
  }

  /** A rendered count followed by a non-digit is exactly what the digit run reads. */
  lemma DigitRun(text: string, i: nat, d: string)
    requires AllDigits(d) && At(text, i, d) && i + |d| < |text| && !IsDigit(text[i + |d|])
    ensures DigitEnd(text, i) == i + |d|
  {
  }

  lemma EventHeaderMatch(text: string)
    ensures MatchAt(EventHeader, text, 0) == EventHeaderAt(text, 0)
  {
  }

  lemma LeakHeaderMatch(text: string)
    ensures MatchAt(LeakHeader, text, 0) == LeakHeaderAt(text, 0)
  {
  }

  /** Where a match at the very start is found, the search stops. */
  lemma ExecAtStart(pat: Pattern, text: string)
    requires MatchAt(pat, text, 0).Some?
    ensures Exec(pat, text, 0) == MatchAt(pat, text, 0)
  {
  }

  lemma AtStartOf(s: string, b: string)
    ensures At(s + b, 0, s)
  {
    assert (s + b)[..|s|] == s;
  }

  lemma AtEndOf(a: string, s: string)
    ensures At(a + s, |a|, s)
  {
    assert (a + s)[|a|..] == s;
  }

  /** The event-listener expression reads a block at the start of a text. */
  lemma EventHeaderFromParts(text: string, digits: string)
    requires AllDigits(digits)
    requires At(text, 0, FoundPrefix) && At(text, |FoundPrefix|, digits)
    requires At(text, |FoundPrefix| + |digits|, EventTail())
    ensures EventHeaderAt(text, 0) == Some(Match(0, |FoundPrefix| + |digits| + |EventTail()|, "", ""))
  {
    var d := |FoundPrefix| + |digits|;
    assert text[d..d + |EventTail()|][0] == text[d];
    DigitRun(text, |FoundPrefix|, digits);
  }

  /** The event-listener expression reads a block written with any count. */
  lemma EventHeaderAtFront(digits: string, rest: string)
    requires AllDigits(digits)
    ensures EventHeaderAt(FoundPrefix + digits + EventTail() + rest, 0)
      == Some(Match(0, |FoundPrefix| + |digits| + |EventTail()|, "", ""))
  {
    var a := FoundPrefix + digits;
    var b := a + EventTail();
    AtStartOf(FoundPrefix, digits);
    AtPrefix(a, EventTail(), 0, FoundPrefix);
    AtPrefix(b, rest, 0, FoundPrefix);
    AtEndOf(FoundPrefix, digits);
    AtPrefix(a, EventTail(), |FoundPrefix|, digits);
    AtPrefix(b, rest, |FoundPrefix|, digits);
    AtEndOf(a, EventTail());
    AtPrefix(b, rest, |a|, EventTail());
    EventHeaderFromParts(b + rest, digits);
  }

  /** An event-listener block at the front of a text is the first event-listener block found. */
  lemma EventBlockFirst(count: nat, rest: string)
    ensures Exec(EventHeader, EventComment(count) + rest, 0) == Some(Match(0, |EventComment(count)|, "", ""))
  {
    var digits := NatToString(count);
    var text := EventComment(count) + rest;
    assert text == FoundPrefix + digits + EventTail() + rest;
    EventHeaderAtFront(digits, rest);
    EventHeaderMatch(text);
    ExecAtStart(EventHeader, text);
  }

  /** A string found in the middle part of a text is found there, shifted by the first part. */
  lemma AtShift(a: string, x: string, b: string, i: nat, s: string)
    requires At(x, i, s)
    ensures At(a + x + b, |a| + i, s)
  {
    assert (a + x + b)[|a| + i..|a| + i + |s|] == x[i..i + |s|];
  }

  /** The pieces of a block's tail, at their offsets. */
  lemma LeakTailParts(kind: string, todo: string)
    ensures var t := LeakTail(kind, todo);
      && At(t, 0, " potential ")
      && At(t, 11, kind)
      && At(t, 11 + |kind|, LeaksTodo)
      && At(t, 11 + |kind| + |LeaksTodo|, todo)
      && At(t, 11 + |kind| + |LeaksTodo| + |todo|, "\n")
  {
    var a := " potential " + kind;
    var b := a + LeaksTodo;
    var c := b + todo;
    AtStartOf(" potential ", kind);
    AtPrefix(a, LeaksTodo, 0, " potential ");
    AtPrefix(b, todo, 0, " potential ");
    AtPrefix(c, "\n", 0, " potential ");
    AtEndOf(" potential ", kind);
    AtPrefix(a, LeaksTodo, 11, kind);
    AtPrefix(b, todo, 11, kind);
    AtPrefix(c, "\n", 11, kind);
    AtEndOf(a, LeaksTodo);
    AtPrefix(b, todo, |a|, LeaksTodo);
    AtPrefix(c, "\n", |a|, LeaksTodo);
    AtEndOf(b, todo);
    AtPrefix(c, "\n", |b|, todo);
    AtEndOf(c, "\n");
  }

  /** Either kind and either TODO line: a block the leak expression accepts. */
  predicate KnownBlock(kind: string, todo: string) {
    (kind == EventKind || kind == ResourceKind) && (todo == EventTodo || todo == ResourceTodo)
  }

  /** Which kind the leak expression reads at `k`. */
  lemma KindEnd(text: string, k: nat, kind: string)
    requires (kind == EventKind || kind == ResourceKind) && At(text, k, kind)
    ensures EitherAt(text, k, EventKind, ResourceKind) == k + |kind|
  {
    if kind == ResourceKind {
      assert text[k..k + |kind|][0] == text[k];
      NotAtWhere(text, k, EventKind, 0);
    }
  }

  /** Which TODO line the leak expression reads at `t`. */
  lemma TodoEnd(text: string, t: nat, todo: string)
    requires (todo == EventTodo || todo == ResourceTodo) && At(text, t, todo)
    ensures EitherAt(text, t, EventTodo, ResourceTodo) == t + |todo|
  {
    if todo == ResourceTodo {
      assert text[t..t + |todo|][37] == text[t + 37] == 'd';
      assert EventTodo[37] == 'e';
      NotAtWhere(text, t, EventTodo, 37);
    }
  }

  /** What follows the count in a block, read from its parts. */
  lemma LeakBlockRestFromParts(text: string, k: nat, kind: string, todo: string)
    requires KnownBlock(kind, todo)
    requires At(text, k, kind)
    requires At(text, k + |kind|, LeaksTodo)
    requires At(text, k + |kind| + |LeaksTodo|, todo)
    requires At(text, k + |kind| + |LeaksTodo| + |todo|, "\n")
    ensures LeakBlockRest(text, k) == Some(k + |kind| + |LeaksTodo| + |todo| + 1)
  {
    KindEnd(text, k, kind);
    TodoEnd(text, k + |kind| + |LeaksTodo|, todo);
  }

  /** The leak-block expression reads a block from its parts at the start of a text. */
  lemma LeakHeaderFromParts(text: string, digits: string, kind: string, todo: string)
    requires AllDigits(digits) && KnownBlock(kind, todo)
    requires At(text, 0, FoundPrefix) && At(text, |FoundPrefix|, digits)
    requires var d := |FoundPrefix| + |digits|;
      && At(text, d, " potential ")
      && LeakBlockRest(text, d + 11) == Some(d + 11 + |kind| + |LeaksTodo| + |todo| + 1)
    ensures LeakHeaderAt(text, 0)
      == Some(Match(0, |FoundPrefix| + |digits| + 11 + |kind| + |LeaksTodo| + |todo| + 1, "", ""))
  {
    var d := |FoundPrefix| + |digits|;
    assert text[d..d + 11][0] == text[d];
    DigitRun(text, |FoundPrefix|, digits);
  }

  /** The parts of a block's tail after any first part, at their offsets. */
  lemma LeakTailRead(a: string, kind: string, todo: string, rest: string)
    ensures var text := a + LeakTail(kind, todo) + rest;
      && At(text, |a|, " potential ")
      && At(text, |a| + 11, kind)
      && At(text, |a| + 11 + |kind|, LeaksTodo)
      && At(text, |a| + 11 + |kind| + |LeaksTodo|, todo)
      && At(text, |a| + 11 + |kind| + |LeaksTodo| + |todo|, "\n")
  {
    var tail := LeakTail(kind, todo);
    LeakTailParts(kind, todo);
    AtShift(a, tail, rest, 0, " potential ");
    AtShift(a, tail, rest, 11, kind);
    AtShift(a, tail, rest, 11 + |kind|, LeaksTodo);
    AtShift(a, tail, rest, 11 + |kind| + |LeaksTodo|, todo);
    AtShift(a, tail, rest, 11 + |kind| + |LeaksTodo| + |todo|, "\n");
  }

  /** The prefix and the count of a block written with any count, at their offsets. */
  lemma CountRead(digits: string, tail: string, rest: string)
    ensures At(FoundPrefix + digits + tail + rest, 0, FoundPrefix)
    ensures At(FoundPrefix + digits + tail + rest, |FoundPrefix|, digits)
  {
    var a := FoundPrefix + digits;
    AtStartOf(FoundPrefix, digits);
    AtPrefix(a, tail, 0, FoundPrefix);
    AtPrefix(a + tail, rest, 0, FoundPrefix);
    AtEndOf(FoundPrefix, digits);
    AtPrefix(a, tail, |FoundPrefix|, digits);
    AtPrefix(a + tail, rest, |FoundPrefix|, digits);
  }

  /** The leak-block expression reads a block written with any count. */
  lemma LeakBlockAtFront(kind: string, count: nat, todo: string, rest: string)
    requires KnownBlock(kind, todo)
    ensures LeakHeaderAt(LeakComment(kind, count, todo) + rest, 0)
      == Some(Match(0, |LeakComment(kind, count, todo)|, "", ""))
  {
    var digits := NatToString(count);
    var text := LeakComment(kind, count, todo) + rest;
    CountRead(digits, LeakTail(kind, todo), rest);
    LeakTailRead(FoundPrefix + digits, kind, todo, rest);
    LeakBlockRestFromParts(text, |FoundPrefix| + |digits| + 11, kind, todo);
    LeakHeaderFromParts(text, digits, kind, todo);
  }

  /** A leak block at the front of a text is the first leak block found. */
  lemma LeakBlockFirst(kind: string, count: nat, todo: string, rest: string)
    requires KnownBlock(kind, todo)
    ensures Exec(LeakHeader, LeakComment(kind, count, todo) + rest, 0)
      == Some(Match(0, |LeakComment(kind, count, todo)|, "", ""))
  {
    var text := LeakComment(kind, count, todo) + rest;
    LeakBlockAtFront(kind, count, todo, rest);
    LeakHeaderMatch(text);
    ExecAtStart(LeakHeader, text);
  }

  /** A block inserted after the first event-listener block lands right below a heading one. */
  lemma InsertBelowEventBlock(count: nat, rest: string, s: string)
    ensures InsertAfterFirst(EventComment(count) + rest, EventHeader, s) == EventComment(count) + s + rest
  {
    var block := EventComment(count);
    EventBlockFirst(count, rest);
    assert (block + rest)[..|block|] == block && (block + rest)[|block|..] == rest;
  }

  /** A block inserted after the first leak block lands right below a heading one. */
  lemma InsertBelowLeakBlock(kind: string, count: nat, todo: string, rest: string, s: string)
    requires KnownBlock(kind, todo)
    ensures InsertAfterFirst(LeakComment(kind, count, todo) + rest, LeakHeader, s)
      == LeakComment(kind, count, todo) + s + rest
  {
    var block := LeakComment(kind, count, todo);
    LeakBlockFirst(kind, count, todo, rest);
    assert (block + rest)[..|block|] == block && (block + rest)[|block|..] == rest;
  }

  /** The same, with the text below the heading block in two parts. */
  lemma InsertBelowLeakBlockOf(kind: string, count: nat, todo: string, mid: string, rest: string, s: string)
    requires KnownBlock(kind, todo)
    ensures InsertAfterFirst(LeakComment(kind, count, todo) + mid + rest, LeakHeader, s)
      == LeakComment(kind, count, todo) + s + mid + rest
  {
    var block := LeakComment(kind, count, todo);
    InsertBelowLeakBlock(kind, count, todo, mid + rest, s);
    assert block + mid + rest == block + (mid + rest);
    assert block + s + (mid + rest) == block + s + mid + rest;
  }

  lemma LeakAllThree(code: string, events: nat, resources: nat, timers: nat)
    requires events > 0 && resources > 0 && timers > 0
    ensures LeakText(code, events, resources, timers)
      == EventComment(events) + TimerComment(timers) + ResourceComment(resources) + code
  {
    InsertBelowEventBlock(events, code, ResourceComment(resources));
    InsertBelowLeakBlockOf(EventKind, events, EventTodo, ResourceComment(resources), code, TimerComment(timers));
  }

  lemma LeakEventsResources(code: string, events: nat, resources: nat)
    requires events > 0 && resources > 0
    ensures LeakText(code, events, resources, 0) == EventComment(events) + ResourceComment(resources) + code
  {
    InsertBelowEventBlock(events, code, ResourceComment(resources));
  }

  lemma LeakEventsTimers(code: string, events: nat, timers: nat)
    requires events > 0 && timers > 0
    ensures LeakText(code, events, 0, timers) == EventComment(events) + TimerComment(timers) + code
  {
    InsertBelowLeakBlock(EventKind, events, EventTodo, code, TimerComment(timers));
  }

  lemma LeakResourcesTimers(code: string, resources: nat, timers: nat)
    requires resources > 0 && timers > 0
    ensures LeakText(code, 0, resources, timers) == ResourceComment(resources) + TimerComment(timers) + code
  {
    InsertBelowLeakBlock(ResourceKind, resources, ResourceTodo, code, TimerComment(timers));
  }

  /**
   * Timer warnings alone add no block: the timer comment only goes below a
   * leak block already in the text, and without one the text is unchanged.
   */
  lemma LeakTimersAlone(code: string, timers: nat)
    requires !Occurs(LeakHeader, code)
    ensures LeakText(code, 0, 0, timers) == code
  {
  }

  /** A text with no leak warnings of any kind is left as it is. */
  lemma LeakNone(code: string)
    ensures LeakText(code, 0, 0, 0) == code
  {
  }

  // ---------------------------------------------------------------------
  // The accumulator rewrite (autoFixer.js:202-224)

  /** Each comment lengthens the text by its own length. */
  lemma {:induction false} InsertedLength(code: string, ps: seq<nat>, c: string)
    ensures |Inserted(code, ps, c)| == |code| + |ps| * |c|
    decreases |ps|
  {
    if |ps| > 0 {
      var n := |ps| - 1;
      InsertedLength(code, ps[..n], c);
      assert |ps| * |c| == n * |c| + |c|;
    }
  }

  /** One turn of the unreachable-code loop: the next comment goes in at the next offset, moved on by the comments already in. */
  lemma InsertedStep(code: string, ps: seq<nat>, k: nat, c: string)
    requires k < |ps|
    ensures Inserted(code, ps[..k + 1], c) == InsertAt(Inserted(code, ps[..k], c), ps[k] + k * |c|, c)
  {
    assert ps[..k + 1][..k] == ps[..k];
  }

  /**
   * Replacing the span `[start, end)` of the input, found at the input's
   * offset and moved on by the drift `|out| - from`, in the text built so
   * far (`out` and then the input from `from`).
   */
  lemma SpliceShifted(text: string, position: int, code: string, out: string, from: nat, start: nat, end: nat, rep: string)
    requires from <= start <= end <= |code|
    requires text == out + code[from..] && position == |out| + start - from
    ensures ReplaceSpan(text, position, end - start, rep) == (out + code[from..start] + rep) + code[end..]
  {
    assert text[..position] == out + code[from..start];
    assert text[position + (end - start)..] == code[end..];
  }

  /**
   * One turn of the rewrite loop: when `out` followed by the rewrite of the
   * rest of the text from `from` is the whole rewrite, so is `out` with the
   * text up to the match and its replacement, followed by the rewrite from
   * where the match ends.
   */
  lemma RewriteStep(code: string, out: string, from: nat, m: Match)
    requires from <= |code| && Exec(Accumulator, code, from) == Some(m)
    requires out + RewriteFrom(code, from) == Rewritten(code)
    ensures (out + code[from..m.start] + Replacement(m)) + RewriteFrom(code, m.end) == Rewritten(code)
  {
    RewriteUnfold(code, from, m);
    AppendShift(out, code[from..m.start], Replacement(m), RewriteFrom(code, m.end), RewriteFrom(code, from),
      Rewritten(code));
  }

  /** The rewrite from `from` begins with the next match's replacement. */
  lemma RewriteUnfold(code: string, from: nat, m: Match)
    requires from <= |code| && Exec(Accumulator, code, from) == Some(m)
    ensures m.end <= |code|
    ensures RewriteFrom(code, from) == code[from..m.start] + Replacement(m) + RewriteFrom(code, m.end)
  {
  }

  /** Moving two pieces from the rest of a text onto the part already built. */
  lemma AppendShift(out: string, a: string, b: string, rest: string, tail: string, total: string)
    requires tail == a + b + rest && out + tail == total
    ensures (out + a + b) + rest == total
  {
    assert out + (a + b + rest) == (out + a + b) + rest;
  }

  /** The rewrite replaces exactly the spans the `exec` loop reports, each by its initialised form. */
  lemma {:induction false} RewriteWeave(code: string, from: nat)
    requires from <= |code|
    ensures var ms := AllMatches(Accumulator, code, from);
      RewriteFrom(code, from) == Weave(code, from, ms, Replacements(ms))
    decreases |code| - from
  {
    match Exec(Accumulator, code, from)
    case None =>
    case Some(m) =>
      RewriteWeave(code, m.end);
      var ms := AllMatches(Accumulator, code, from);
      var rest := AllMatches(Accumulator, code, m.end);
      assert ms == [m] + rest;
      assert ms[0] == m && ms[1..] == rest;
      assert Replacements(ms)[1..] == Replacements(rest);
  }

  /** Spans in order, each within the text from `from` on, none overlapping the next. */
  predicate Successive(code: string, from: nat, ms: seq<Match>) {
    && (forall i :: 0 <= i < |ms| ==> from <= ms[i].start <= ms[i].end <= |code|)
    && (forall i, j :: 0 <= i < j < |ms| ==> ms[i].end <= ms[j].start)
  }

  lemma OrderedSuccessive(pat: Pattern, code: string, from: nat, ms: seq<Match>)
    requires OrderedMatches(pat, code, from, ms)
    ensures Successive(code, from, ms)
  {
    forall i | 0 <= i < |ms|
      ensures from <= ms[i].start <= ms[i].end <= |code|
    {
      assert IsMatchFrom(pat, code, from, ms[i]);
    }
  }

  /** Putting back the original text of successive spans gives back the text. */
  lemma {:induction false} WeaveOriginal(code: string, from: nat, ms: seq<Match>)
    requires from <= |code| && Successive(code, from, ms)
    ensures Weave(code, from, ms, Originals(code, ms)) == code[from..]
    decreases |ms|
  {
    if |ms| > 0 {
      var m := ms[0];
      var rest := ms[1..];
      assert Successive(code, m.end, rest) by {
        forall i | 0 <= i < |rest|
          ensures m.end <= rest[i].start <= rest[i].end <= |code|
        {
          assert rest[i] == ms[i + 1];
        }
      }
      WeaveOriginal(code, m.end, rest);
      assert Originals(code, ms)[1..] == Originals(code, rest);
      SliceJoin(code, from, m.start, m.end);
      SliceJoin(code, from, m.end, |code|);
    }
  }

  /**
   * Undoing the accumulator pass: the rewritten text is the input with each
   * reported span replaced, and putting the spans' original text back in
   * their place gives the input again.
   */
  lemma RewriteRoundTrip(code: string)
    ensures var ms := AllMatches(Accumulator, code, 0);
      && Rewritten(code) == Weave(code, 0, ms, Replacements(ms))
      && Weave(code, 0, ms, Originals(code, ms)) == code
  {
    RewriteWeave(code, 0);
    AllMatchesOrdered(Accumulator, code, 0);
    OrderedSuccessive(Accumulator, code, 0, AllMatches(Accumulator, code, 0));
    WeaveOriginal(code, 0, AllMatches(Accumulator, code, 0));
  }

  /** Without an accumulator pattern in the text the pass changes nothing. */
  lemma RewriteNothing(code: string)
    requires !Occurs(Accumulator, code)
    ensures Rewritten(code) == code
  {
  }

  lemma AccumulatorMatch(code: string, m: Match)
    requires m.start <= |code| && MatchAt(Accumulator, code, m.start) == Some(m)
    ensures AccumulatorAt(code, m.start) == Some(m)
  {
  }

  /**
   * What the expression matches: only blanks may stand between the
   * declaration and the compound assignment, so a declaration separated from
   * its `+=` by any other code is never rewritten.
   */
  lemma AccumulatorShape(code: string, m: Match)
    requires m.start <= |code| && MatchAt(Accumulator, code, m.start) == Some(m)
    ensures m.g1 == "let" || m.g1 == "var"
    ensures exists gap, gap2, gap3 :: (|gap| > 0 && IsBlank(gap) && IsBlank(gap2) && IsBlank(gap3)
      && code[m.start..m.end] == AccumulatorText(m.g1, gap, m.g2, gap2, gap3))
  {
    AccumulatorMatch(code, m);
  }
}
