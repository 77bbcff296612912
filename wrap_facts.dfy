/** What the two word wrappers guarantee, and where `wrap_text_dynamic`
    loses text. */
module WrapFacts {
  import opened PyStrings
  import opened Wrap

  // ---------------------------------------------------------------------------
  // Vocabulary

  /** A word with at least one character and no whitespace at all. */
  predicate CleanWord(w: string) {
    w != "" && forall i :: 0 <= i < |w| ==> !IsSpace(w[i])
  }

  /** A paragraph made of clean words separated by single spaces: no leading,
      trailing or repeated spaces and no other whitespace. */
  predicate CleanParagraph(p: string) {
    CleanWords(WordsOf(p))
  }

  /** Non-empty, with no whitespace at either end (so `strip` keeps it whole). */
  predicate Trimmed(s: string) {
    s != "" && !IsSpace(s[0]) && !IsSpace(s[|s| - 1])
  }

  /** Every word of `ws` is clean. */
  predicate CleanWords(ws: seq<string>) {
    forall i :: 0 <= i < |ws| ==> CleanWord(ws[i])
  }

  /** Every word of `ws` fits the column on its own. */
  predicate NoWordTooWide(measure: Measure, maxWidth: real, ws: seq<string>) {
    forall i :: 0 <= i < |ws| ==> measure(ws[i]) <= maxWidth
  }

  /** The measurement service's contract: appending a character never makes a
      string narrower. */
  ghost predicate Monotone(measure: Measure) {
    forall s: string, c: char :: measure(s) <= measure(s + [c])
  }

  /** The first space-separated word of a line. */
  function FirstWord(s: string): string {
    Split(s, ' ')[0]
  }

  /** Adding the first word of each line to the end of the line before it
      would overflow the column: the greedy packing is maximal. */
  predicate Maximal(measure: Measure, maxWidth: real, r: seq<string>) {
    forall i :: 0 <= i < |r| - 1 ==> measure(r[i] + " " + FirstWord(r[i + 1])) > maxWidth
  }

  /** The concatenation of a sequence of strings. */
  function Concat(xs: seq<string>): string {
    if xs == [] then "" else Concat(xs[..|xs| - 1]) + xs[|xs| - 1]
  }

  /** A line the dynamic wrapper may emit: empty (a blank paragraph), fitting, or a
      single character that is too wide by itself. */
  predicate LineOk(measure: Measure, maxWidth: real, l: string) {
    l == "" || measure(l) <= maxWidth || |l| == 1
  }

  predicate LinesOk(measure: Measure, maxWidth: real, r: seq<string>) {
    forall i :: 0 <= i < |r| ==> LineOk(measure, maxWidth, r[i])
  }

  predicate AccOk(measure: Measure, maxWidth: real, a: Acc) {
    LinesOk(measure, maxWidth, a.lines) && LineOk(measure, maxWidth, a.line)
  }

  // ---------------------------------------------------------------------------
  // Small facts about the folds

  /** One word only ever appends to the lines emitted so far. */
  lemma WordStepExtends(kind: Wrapper, measure: Measure, maxWidth: real, a: Acc, w: string)
    ensures var r := WordStep(kind, measure, maxWidth, a, w).lines; |a.lines| <= |r| && r[..|a.lines|] == a.lines
  {
    BreakWordExtends(measure, maxWidth, Acc(a.lines, ""), w, |w|);
  }

  lemma {:induction false} BreakWordExtends(measure: Measure, maxWidth: real, a: Acc, w: string, n: nat)
    requires n <= |w|
    ensures var r := BreakWord(measure, maxWidth, a, w, n).lines; |a.lines| <= |r| && r[..|a.lines|] == a.lines
  {
    if n > 0 {
      BreakWordExtends(measure, maxWidth, a, w, n - 1);
    }
  }

  /** Appending to a monotone measure's argument never narrows it. */
  lemma {:induction false} MonotoneAppend(measure: Measure, s: string, t: string)
    requires Monotone(measure)
    ensures measure(s) <= measure(s + t)
    decreases |t|
  {
    if t != [] {
      var u := s + t[..|t| - 1];
      MonotoneAppend(measure, s, t[..|t| - 1]);
      assert measure(u) <= measure(u + [t[|t| - 1]]);
      assert s + t == u + [t[|t| - 1]];
    } else {
      assert s + t == s;
    }
  }

  /** A clean paragraph is not blank. */
  lemma CleanParagraphNotBlank(p: string)
    requires CleanParagraph(p)
    ensures Strip(p) != ""
  {
    var ws := WordsOf(p);
    JoinSplit(p, ' ');
    JoinStartsWith(ws, ' ');
    assert p[0] == ws[0][0];
    StripEmptyIffAllSpace(p);
  }

  lemma {:induction false} JoinStartsWith(xs: seq<string>, sep: char)
    requires xs != []
    ensures |xs[0]| <= |Join(xs, sep)| && Join(xs, sep)[..|xs[0]|] == xs[0]
    decreases |xs|
  {
    if |xs| > 1 {
      var init := xs[..|xs| - 1];
      JoinStartsWith(init, sep);
      assert init[0] == xs[0];
      var j := Join(init, sep);
      assert Join(xs, sep) == j + ([sep] + xs[|xs| - 1]);
      assert (j + ([sep] + xs[|xs| - 1]))[..|xs[0]|] == j[..|xs[0]|];
    }
  }

  /** Joining with one more word. */
  lemma JoinSnoc(ws: seq<string>, n: nat, sep: char)
    requires 1 <= n < |ws|
    ensures Join(ws[..n + 1], sep) == Join(ws[..n], sep) + [sep] + ws[n]
  {
    assert ws[..n + 1][..n] == ws[..n];
  }

  /** Gluing two parts of a last element is the same as joining them as two elements. */
  lemma JoinGlue(xs: seq<string>, x: string, y: string, sep: char)
    ensures Join(xs + [x + [sep] + y], sep) == Join(xs + [x, y], sep)
  {
    assert (xs + [x, y])[..|xs| + 1] == xs + [x];
    if xs != [] {
      JoinAppend(xs, [x + [sep] + y], sep);
      JoinAppend(xs, [x], sep);
      assert (xs + [x, y])[..|xs| + 1] == xs + [x];
    }
  }

  /** A clean word is trimmed. */
  lemma CleanTrimmed(ws: seq<string>, i: nat)
    requires CleanWords(ws) && i < |ws|
    ensures Trimmed(ws[i])
  {
    assert CleanWord(ws[i]);
  }

  /** With trimmed words, the candidate line needs no stripping. */
  lemma StripCandidate(line: string, word: string)
    requires Trimmed(word)
    requires line == "" || Trimmed(line)
    ensures Strip(line + " " + word) == if line == "" then word else line + " " + word
  {
    if line == "" {
      assert line + " " + word == " " + word;
      StripSpacePrefix(word);
    } else {
      var s := line + " " + word;
      assert s[0] == line[0] && s[|s| - 1] == word[|word| - 1];
      StripKeeps(s);
    }
  }

  /** The first word of a line is unchanged by appending more words. */
  lemma FirstWordAppend(line: string, word: string)
    ensures FirstWord(line + " " + word) == FirstWord(line)
  {
    SplitAround(line, word, ' ');
    assert line + " " + word == line + [' '] + word;
  }

  /** A clean word is its own first word. */
  lemma FirstWordOfWord(word: string)
    requires CleanWord(word)
    ensures FirstWord(word) == word
  {
    SplitNoSep(word, ' ');
  }

  // ---------------------------------------------------------------------------
  // Blank paragraphs and empty lines

  /** A blank or whitespace-only paragraph gives exactly one empty line (so
      `wrap("")` is `[""]`); a non-blank paragraph never gives an empty line in
      `wrap_text_dynamic`. */
  lemma DynamicEmptyLineIffBlank(measure: Measure, maxWidth: real, p: string)
    ensures AllSpace(p) ==> WrapParagraph(Dynamic, measure, maxWidth, p) == [""]
    ensures !AllSpace(p) ==> "" !in WrapParagraph(Dynamic, measure, maxWidth, p)
  {
    StripEmptyIffAllSpace(p);
    if !AllSpace(p) {
      var ws := WordsOf(p);
      WordsNoEmptyLine(measure, maxWidth, Acc([], ""), ws, |ws|);
    }
  }

  lemma {:induction false} WordsNoEmptyLine(measure: Measure, maxWidth: real, a: Acc, ws: seq<string>, n: nat)
    requires n <= |ws|
    requires "" !in a.lines
    ensures "" !in Words(Dynamic, measure, maxWidth, a, ws, n).lines
  {
    if n > 0 {
      WordsNoEmptyLine(measure, maxWidth, a, ws, n - 1);
      var b := Words(Dynamic, measure, maxWidth, a, ws, n - 1);
      BreakWordNoEmptyLine(measure, maxWidth, Acc(b.lines, ""), ws[n - 1], |ws[n - 1]|);
    }
  }

  lemma {:induction false} BreakWordNoEmptyLine(measure: Measure, maxWidth: real, a: Acc, w: string, n: nat)
    requires n <= |w|
    requires "" !in a.lines
    ensures "" !in BreakWord(measure, maxWidth, a, w, n).lines
  {
    if n > 0 {
      BreakWordNoEmptyLine(measure, maxWidth, a, w, n - 1);
    }
  }

  /** The empty text wraps to one empty line in both wrappers. */
  lemma EmptyTextIsOneEmptyLine(kind: Wrapper, measure: Measure, maxWidth: real)
    ensures WrapLines(kind, measure, maxWidth, "") == [""]
  {
    var ps := ParagraphsOf("");
    assert ps == [""];
    assert Strip("") == "";
    assert WrapParagraphs(kind, measure, maxWidth, ps, 1) == [] + WrapParagraph(kind, measure, maxWidth, "");
  }

  /** A clean paragraph gives at least one line in `wrap_text_dynamic`, also
      when some of its words are too wide: once a word has been read, the
      gathered line is never empty. */
  lemma DynamicCleanHasLine(measure: Measure, maxWidth: real, p: string)
    requires CleanParagraph(p)
    ensures WrapParagraph(Dynamic, measure, maxWidth, p) != []
  {
    var ws := WordsOf(p);
    CleanParagraphNotBlank(p);
    WordsLineNotEmpty(measure, maxWidth, ws, |ws|);
  }

  lemma {:induction false} WordsLineNotEmpty(measure: Measure, maxWidth: real, ws: seq<string>, n: nat)
    requires 1 <= n <= |ws| && CleanWords(ws)
    ensures Words(Dynamic, measure, maxWidth, Acc([], ""), ws, n).line != ""
  {
    if n > 1 {
      WordsLineNotEmpty(measure, maxWidth, ws, n - 1);
    }
    WordLineNotEmpty(measure, maxWidth, Words(Dynamic, measure, maxWidth, Acc([], ""), ws, n - 1), ws, n - 1);
  }

  /** After a clean word the gathered line is not empty. */
  lemma WordLineNotEmpty(measure: Measure, maxWidth: real, a: Acc, ws: seq<string>, i: nat)
    requires i < |ws| && CleanWords(ws)
    ensures WordStep(Dynamic, measure, maxWidth, a, ws[i]).line != ""
  {
    var w := ws[i];
    assert CleanWord(w);
    var s := a.line + " " + w;
    assert s[|a.line| + 1] == w[0];
    StripEmptyIffAllSpace(s);
    if measure(Strip(s)) > maxWidth && measure(w) > maxWidth {
      BreakWordLine(measure, maxWidth, Acc(a.lines, ""), w, |w|);
    }
  }

  /** The character fallback leaves a non-empty gathered line. */
  lemma {:induction false} BreakWordLine(measure: Measure, maxWidth: real, a: Acc, w: string, n: nat)
    requires 0 < n <= |w|
    ensures BreakWord(measure, maxWidth, a, w, n).line != ""
  {
  }

  // ---------------------------------------------------------------------------
  // Width bound

  /** Every line `wrap_text_dynamic` returns is empty, fits in `maxWidth`, or is a
      single character that does not fit by itself. No property of `measure` is
      needed: every fragment either passed the width test or is one character. */
  lemma DynamicWidthBound(measure: Measure, maxWidth: real, text: string)
    ensures var r := WrapLines(Dynamic, measure, maxWidth, text);
      forall i :: 0 <= i < |r| ==> r[i] == "" || measure(r[i]) <= maxWidth || |r[i]| == 1
  {
    var ps := ParagraphsOf(text);
    ParagraphsOk(measure, maxWidth, ps, |ps|);
    var r := WrapLines(Dynamic, measure, maxWidth, text);
    assert forall i :: 0 <= i < |r| ==> LineOk(measure, maxWidth, r[i]);
  }

  lemma {:induction false} ParagraphsOk(measure: Measure, maxWidth: real, ps: seq<string>, n: nat)
    requires n <= |ps|
    ensures LinesOk(measure, maxWidth, WrapParagraphs(Dynamic, measure, maxWidth, ps, n))
  {
    if n > 0 {
      ParagraphsOk(measure, maxWidth, ps, n - 1);
      ParagraphOk(measure, maxWidth, ps[n - 1]);
      var r0 := WrapParagraphs(Dynamic, measure, maxWidth, ps, n - 1);
      var q := WrapParagraph(Dynamic, measure, maxWidth, ps[n - 1]);
      AppendOk(measure, maxWidth, r0, q);
    }
  }

  lemma AppendOk(measure: Measure, maxWidth: real, r0: seq<string>, q: seq<string>)
    requires LinesOk(measure, maxWidth, r0) && LinesOk(measure, maxWidth, q)
    ensures LinesOk(measure, maxWidth, r0 + q)
  {
    forall i | 0 <= i < |r0 + q| ensures LineOk(measure, maxWidth, (r0 + q)[i]) {
      if i < |r0| { assert (r0 + q)[i] == r0[i]; } else { assert (r0 + q)[i] == q[i - |r0|]; }
    }
  }

  lemma ParagraphOk(measure: Measure, maxWidth: real, p: string)
    ensures LinesOk(measure, maxWidth, WrapParagraph(Dynamic, measure, maxWidth, p))
  {
    if Strip(p) != "" {
      var ws := WordsOf(p);
      WordsOk(measure, maxWidth, Acc([], ""), ws, |ws|);
    }
  }

  lemma {:induction false} WordsOk(measure: Measure, maxWidth: real, a: Acc, ws: seq<string>, n: nat)
    requires n <= |ws|
    requires AccOk(measure, maxWidth, a)
    ensures AccOk(measure, maxWidth, Words(Dynamic, measure, maxWidth, a, ws, n))
  {
    if n > 0 {
      WordsOk(measure, maxWidth, a, ws, n - 1);
      var b := Words(Dynamic, measure, maxWidth, a, ws, n - 1);
      BreakWordOk(measure, maxWidth, Acc(b.lines, ""), ws[n - 1], |ws[n - 1]|);
    }
  }

  lemma {:induction false} BreakWordOk(measure: Measure, maxWidth: real, a: Acc, w: string, n: nat)
    requires n <= |w|
    requires AccOk(measure, maxWidth, a)
    ensures AccOk(measure, maxWidth, BreakWord(measure, maxWidth, a, w, n))
  {
    if n > 0 {
      BreakWordOk(measure, maxWidth, a, w, n - 1);
    }
  }

  // ---------------------------------------------------------------------------
  // Greedy packing when no word is too wide

  /** The invariant of the word loop over clean words that all fit: the lines so
      far plus the gathered one are non-empty, fit, are maximal, and joined by
      single spaces give `text`, the words read so far. */
  predicate GreedyState(measure: Measure, maxWidth: real, a: Acc, text: string) {
    var all := a.lines + [a.line];
    Trimmed(a.line)
    && (forall i :: 0 <= i < |all| ==> all[i] != "" && measure(all[i]) <= maxWidth)
    && Maximal(measure, maxWidth, all)
    && Join(all, ' ') == text
  }

  /** The next word joins the gathered line. */
  lemma GreedyFit(measure: Measure, maxWidth: real, a: Acc, text: string, word: string)
    requires GreedyState(measure, maxWidth, a, text)
    requires CleanWord(word)
    requires measure(a.line + " " + word) <= maxWidth
    ensures GreedyState(measure, maxWidth, Acc(a.lines, a.line + " " + word), text + " " + word)
  {
    var test := a.line + " " + word;
    var all := a.lines + [a.line];
    var all' := a.lines + [test];
    assert test[0] == a.line[0] && test[|test| - 1] == word[|word| - 1];
    forall i | 0 <= i < |all'| ensures all'[i] != "" && measure(all'[i]) <= maxWidth {
      if i < |a.lines| { assert all'[i] == all[i]; }
    }
    FirstWordAppend(a.line, word);
    MaximalReplaceLast(measure, maxWidth, a.lines, a.line, test);
    GlueJoin(a.lines, a.line, word, ' ');
  }

  /** Replacing the last line by one with the same first word keeps maximality. */
  lemma MaximalReplaceLast(measure: Measure, maxWidth: real, lines: seq<string>, x: string, y: string)
    requires Maximal(measure, maxWidth, lines + [x])
    requires FirstWord(y) == FirstWord(x)
    ensures Maximal(measure, maxWidth, lines + [y])
  {
    var all := lines + [x];
    var all' := lines + [y];
    forall i | 0 <= i < |all'| - 1
      ensures measure(all'[i] + " " + FirstWord(all'[i + 1])) > maxWidth
    {
      assert all'[i] == all[i];
      if i < |all'| - 2 {
        assert all'[i + 1] == all[i + 1];
      }
    }
  }

  /** Joining after gluing a word to the last line adds that word to the text. */
  lemma GlueJoin(lines: seq<string>, x: string, word: string, sep: char)
    ensures Join(lines + [x + [sep] + word], sep) == Join(lines + [x], sep) + [sep] + word
  {
    JoinGlue(lines, x, word, sep);
    assert (lines + [x, word])[..|lines| + 1] == lines + [x];
  }

  /** The next word starts a new line. */
  lemma GreedyBreak(measure: Measure, maxWidth: real, a: Acc, text: string, word: string)
    requires GreedyState(measure, maxWidth, a, text)
    requires CleanWord(word)
    requires measure(word) <= maxWidth
    requires measure(a.line + " " + word) > maxWidth
    ensures GreedyState(measure, maxWidth, Acc(a.lines + [a.line], word), text + " " + word)
  {
    var all := a.lines + [a.line];
    var all' := all + [word];
    FirstWordOfWord(word);
    forall i | 0 <= i < |all'| ensures all'[i] != "" && measure(all'[i]) <= maxWidth {
      if i < |all| { assert all'[i] == all[i]; }
    }
    forall i | 0 <= i < |all'| - 1
      ensures measure(all'[i] + " " + FirstWord(all'[i + 1])) > maxWidth
    {
      assert all'[i] == all[i];
      if i < |all'| - 2 {
        assert all'[i + 1] == all[i + 1];
      }
    }
    assert all'[..|all'| - 1] == all;
    assert (a.lines + [a.line]) + [word] == a.lines + [a.line] + [word];
  }

  lemma {:induction false} WordsGreedy(kind: Wrapper, measure: Measure, maxWidth: real, ws: seq<string>, n: nat)
    requires 1 <= n <= |ws|
    requires CleanWords(ws)
    requires NoWordTooWide(measure, maxWidth, ws)
    ensures GreedyState(measure, maxWidth, Words(kind, measure, maxWidth, Acc([], ""), ws, n), Join(ws[..n], ' '))
  {
    var w := ws[n - 1];
    CleanTrimmed(ws, n - 1);
    if n == 1 {
      StripCandidate("", w);
      assert ws[..1] == [w];
      assert w[0] == ws[0][0];
    } else {
      WordsGreedy(kind, measure, maxWidth, ws, n - 1);
      var a := Words(kind, measure, maxWidth, Acc([], ""), ws, n - 1);
      StripCandidate(a.line, w);
      JoinSnoc(ws, n - 1, ' ');
      assert Join(ws[..n], ' ') == Join(ws[..n - 1], ' ') + " " + w;
      if measure(a.line + " " + w) <= maxWidth {
        GreedyFit(measure, maxWidth, a, Join(ws[..n - 1], ' '), w);
      } else {
        GreedyBreak(measure, maxWidth, a, Join(ws[..n - 1], ' '), w);
      }
    }
  }

  /** When every word of a clean paragraph fits the column, its lines are
      non-empty, each fits, each is maximal (the next line's first word would
      overflow it), and joined by single spaces they give the paragraph back.
      This holds for both wrappers. */
  lemma GreedyWhenNoWordTooWide(kind: Wrapper, measure: Measure, maxWidth: real, p: string)
    requires CleanParagraph(p)
    requires NoWordTooWide(measure, maxWidth, WordsOf(p))
    ensures var r := WrapParagraph(kind, measure, maxWidth, p);
      |r| >= 1
      && (forall i :: 0 <= i < |r| ==> r[i] != "" && measure(r[i]) <= maxWidth)
      && Maximal(measure, maxWidth, r)
      && Join(r, ' ') == p
  {
    var ws := WordsOf(p);
    CleanParagraphNotBlank(p);
    WordsGreedy(kind, measure, maxWidth, ws, |ws|);
    assert ws[..|ws|] == ws;
    JoinSplit(p, ' ');
  }

  /** When every word fits, the two wrappers agree line for line. */
  lemma PlainAgreesWithDynamic(measure: Measure, maxWidth: real, p: string)
    requires CleanParagraph(p)
    requires NoWordTooWide(measure, maxWidth, WordsOf(p))
    ensures WrapParagraph(Plain, measure, maxWidth, p) == WrapParagraph(Dynamic, measure, maxWidth, p)
  {
    var ws := WordsOf(p);
    WordsAgree(measure, maxWidth, ws, |ws|, Words(Dynamic, measure, maxWidth, Acc([], ""), ws, |ws|));
  }

  lemma {:induction false} WordsAgree(measure: Measure, maxWidth: real, ws: seq<string>, n: nat, a: Acc)
    requires n <= |ws|
    requires CleanWords(ws)
    requires NoWordTooWide(measure, maxWidth, ws)
    requires a == Words(Dynamic, measure, maxWidth, Acc([], ""), ws, n)
    ensures a == Words(Plain, measure, maxWidth, Acc([], ""), ws, n)
  {
    if n > 0 {
      var b := Words(Dynamic, measure, maxWidth, Acc([], ""), ws, n - 1);
      WordsAgree(measure, maxWidth, ws, n - 1, b);
      if n > 1 {
        GreedyEdges(measure, maxWidth, ws, n - 1, b);
      }
      AgreeNext(measure, maxWidth, ws, n, b);
    }
  }

  /** The two folds stay equal over one more clean word that fits. */
  lemma AgreeNext(measure: Measure, maxWidth: real, ws: seq<string>, n: nat, a: Acc)
    requires 1 <= n <= |ws|
    requires CleanWords(ws) && NoWordTooWide(measure, maxWidth, ws)
    requires a == Words(Plain, measure, maxWidth, Acc([], ""), ws, n - 1)
    requires a == Words(Dynamic, measure, maxWidth, Acc([], ""), ws, n - 1)
    requires a.line == "" || Trimmed(a.line)
    ensures Words(Plain, measure, maxWidth, Acc([], ""), ws, n) == Words(Dynamic, measure, maxWidth, Acc([], ""), ws, n)
  {
    CleanTrimmed(ws, n - 1);
    StepAgree(measure, maxWidth, a, ws[n - 1]);
    WordsNext(Plain, measure, maxWidth, ws, n, a);
    WordsNext(Dynamic, measure, maxWidth, ws, n, a);
  }

  /** One more word of the fold, from the state `a` after the first `n - 1`. */
  lemma WordsNext(kind: Wrapper, measure: Measure, maxWidth: real, ws: seq<string>, n: nat, a: Acc)
    requires 1 <= n <= |ws|
    requires a == Words(kind, measure, maxWidth, Acc([], ""), ws, n - 1)
    ensures Words(kind, measure, maxWidth, Acc([], ""), ws, n) == WordStep(kind, measure, maxWidth, a, ws[n - 1])
  {
  }

  /** The gathered line of the greedy loop has no whitespace at either end. */
  lemma GreedyEdges(measure: Measure, maxWidth: real, ws: seq<string>, n: nat, a: Acc)
    requires 1 <= n <= |ws|
    requires CleanWords(ws)
    requires NoWordTooWide(measure, maxWidth, ws)
    requires a == Words(Dynamic, measure, maxWidth, Acc([], ""), ws, n)
    ensures Trimmed(a.line)
  {
    WordsGreedy(Dynamic, measure, maxWidth, ws, n);
  }

  /** A clean word that fits on its own takes the same step in both wrappers. */
  lemma StepAgree(measure: Measure, maxWidth: real, a: Acc, w: string)
    requires Trimmed(w) && measure(w) <= maxWidth
    requires a.line == "" || Trimmed(a.line)
    ensures WordStep(Plain, measure, maxWidth, a, w) == WordStep(Dynamic, measure, maxWidth, a, w)
  {
    StripCandidate(a.line, w);
  }

  /** A measure of one unit per character, as for a monospaced font of size 1. */
  ghost predicate UnitWidth(measure: Measure) {
    forall s :: measure(s) == |s| as real
  }

  /** A text of one paragraph with no whitespace at either end wraps as its word loop. */
  lemma OneParagraph(kind: Wrapper, measure: Measure, maxWidth: real, p: string, ws: seq<string>, a: Acc)
    requires Trimmed(p) && '\n' !in p
    requires WordsOf(p) == ws
    requires Words(kind, measure, maxWidth, Acc([], ""), ws, |ws|) == a
    ensures WrapLines(kind, measure, maxWidth, p) == Flush(a)
  {
    SplitNoSep(p, '\n');
    StripKeeps(p);
    assert WrapParagraphs(kind, measure, maxWidth, [p], 1) == [] + WrapParagraph(kind, measure, maxWidth, p);
  }

  /** The documented example of `wrap_text_dynamic`: with one unit per
      character and room for three, "A B C D E" gives "A B", "C D", "E", and
      so does the wrapper of templates 6 and 7. */
  lemma ExampleABC(kind: Wrapper, measure: Measure)
    requires UnitWidth(measure)
    ensures WrapLines(kind, measure, 3.0, "A B C D E") == ["A B", "C D", "E"]
  {
    ExampleWords();
    ExampleFold(kind, measure);
    ExampleText();
    OneParagraph(kind, measure, 3.0, "A B C D E", ["A", "B", "C", "D", "E"], Acc(["A B", "C D"], "E"));
  }

  lemma ExampleText()
    ensures Trimmed("A B C D E") && '\n' !in "A B C D E"
  {
  }

  lemma ExampleWords()
    ensures WordsOf("A B C D E") == ["A", "B", "C", "D", "E"]
  {
    FiveWords("A", "B", "C", "D", "E");
    assert "A B C D E" == "A" + " " + ("B" + " " + ("C" + " " + ("D" + " " + "E")));
  }

  /** Five words without spaces, one space apart, split back into those words. */
  lemma FiveWords(a: string, b: string, c: string, d: string, e: string)
    requires ' ' !in a && ' ' !in b && ' ' !in c && ' ' !in d && ' ' !in e
    ensures Split(a + " " + (b + " " + (c + " " + (d + " " + e))), ' ') == [a, b, c, d, e]
  {
    SplitNoSep(e, ' ');
    ExampleSplit(d, e, [e]);
    ExampleSplit(c, d + " " + e, [d, e]);
    ExampleSplit(b, c + " " + (d + " " + e), [c, d, e]);
    ExampleSplit(a, b + " " + (c + " " + (d + " " + e)), [b, c, d, e]);
  }

  /** One word in front of a space-separated rest adds one piece in front. */
  lemma ExampleSplit(w: string, b: string, rb: seq<string>)
    requires ' ' !in w && Split(b, ' ') == rb
    ensures Split(w + " " + b, ' ') == [w] + rb
  {
    SplitAround(w, b, ' ');
    SplitNoSep(w, ' ');
  }

  lemma ExampleFold(kind: Wrapper, measure: Measure)
    requires UnitWidth(measure)
    ensures Words(kind, measure, 3.0, Acc([], ""), ["A", "B", "C", "D", "E"], 5) == Acc(["A B", "C D"], "E")
  {
    ExampleFirst(kind, measure, "A");
    ExampleJoin(kind, measure, [], "A", "B", "A B");
    ExampleBreak(kind, measure, [], "A B", "C", ["A B"]);
    ExampleJoin(kind, measure, ["A B"], "C", "D", "C D");
    ExampleBreak(kind, measure, ["A B"], "C D", "E", ["A B", "C D"]);
    FiveSteps(kind, measure, 3.0, "A", "B", "C", "D", "E",
              Acc([], ""), Acc([], "A"), Acc([], "A B"), Acc(["A B"], "C"), Acc(["A B"], "C D"), Acc(["A B", "C D"], "E"));
  }

  /** The word loop over five words passes through the states one word step apart. */
  lemma FiveSteps(kind: Wrapper, measure: Measure, maxWidth: real, a: string, b: string, c: string, d: string, e: string,
                  s0: Acc, s1: Acc, s2: Acc, s3: Acc, s4: Acc, s5: Acc)
    requires WordStep(kind, measure, maxWidth, s0, a) == s1 && WordStep(kind, measure, maxWidth, s1, b) == s2
    requires WordStep(kind, measure, maxWidth, s2, c) == s3 && WordStep(kind, measure, maxWidth, s3, d) == s4
    requires WordStep(kind, measure, maxWidth, s4, e) == s5
    ensures Words(kind, measure, maxWidth, s0, [a, b, c, d, e], 5) == s5
  {
    var ws := [a, b, c, d, e];
    assert Words(kind, measure, maxWidth, s0, ws, 1) == s1;
    assert Words(kind, measure, maxWidth, s0, ws, 2) == s2;
    assert Words(kind, measure, maxWidth, s0, ws, 3) == s3;
    assert Words(kind, measure, maxWidth, s0, ws, 4) == s4;
  }

  /** The first word of the example starts the line. */
  lemma ExampleFirst(kind: Wrapper, measure: Measure, w: string)
    requires UnitWidth(measure) && Trimmed(w) && |w| <= 3
    ensures WordStep(kind, measure, 3.0, Acc([], ""), w) == Acc([], w)
  {
    StripSpacePrefix(w);
  }

  /** A word that still fits joins the line after one space. */
  lemma ExampleJoin(kind: Wrapper, measure: Measure, lines: seq<string>, l: string, w: string, t: string)
    requires UnitWidth(measure) && Trimmed(l) && Trimmed(w) && |l| + 1 + |w| <= 3 && t == l + " " + w
    ensures WordStep(kind, measure, 3.0, Acc(lines, l), w) == Acc(lines, t)
  {
    assert t[0] == l[0] && t[|t| - 1] == w[|w| - 1];
    StripKeeps(t);
  }

  /** A word that no longer fits, but fits alone, ends the line and starts the next. */
  lemma ExampleBreak(kind: Wrapper, measure: Measure, lines: seq<string>, l: string, w: string, next: seq<string>)
    requires UnitWidth(measure) && Trimmed(l) && Trimmed(w) && |l| + 1 + |w| > 3 && |w| <= 3 && next == lines + [l]
    ensures WordStep(kind, measure, 3.0, Acc(lines, l), w) == Acc(next, w)
  {
    var t := l + " " + w;
    assert t[0] == l[0] && t[|t| - 1] == w[|w| - 1];
    StripKeeps(t);
  }

  // ---------------------------------------------------------------------------
  // The oversized-word branch of wrap_text_dynamic

  /** The character fallback cuts the word into consecutive fragments. */
  lemma {:induction false} BreakWordFragments(measure: Measure, maxWidth: real, lines0: seq<string>, w: string, n: nat)
    requires n <= |w|
    ensures var r := BreakWord(measure, maxWidth, Acc(lines0, ""), w, n);
      |lines0| <= |r.lines| && r.lines[..|lines0|] == lines0
      && Concat(r.lines[|lines0|..]) + r.line == w[..n]
  {
    if n == 0 {
      assert lines0[|lines0|..] == [];
    } else {
      BreakWordFragments(measure, maxWidth, lines0, w, n - 1);
      var r := BreakWord(measure, maxWidth, Acc(lines0, ""), w, n - 1);
      assert w[..n] == w[..n - 1] + [w[n - 1]];
      FragmentStep(measure, maxWidth, lines0, r, w[..n - 1], w[n - 1]);
    }
  }

  /** Lines `lines0` and then fragments that, with the gathered line, spell `s`. */
  predicate FragmentsOf(lines0: seq<string>, r: Acc, s: string) {
    |lines0| <= |r.lines| && r.lines[..|lines0|] == lines0
    && Concat(r.lines[|lines0|..]) + r.line == s
  }

  /** One character of the fallback extends the spelled fragments by it. */
  lemma FragmentStep(measure: Measure, maxWidth: real, lines0: seq<string>, r: Acc, s: string, ch: char)
    requires FragmentsOf(lines0, r, s)
    ensures FragmentsOf(lines0, CharStep(measure, maxWidth, r, ch), s + [ch])
  {
    var k := |lines0|;
    if measure(r.line + [ch]) <= maxWidth {
      assert Concat(r.lines[k..]) + (r.line + [ch]) == (Concat(r.lines[k..]) + r.line) + [ch];
    } else if r.line != "" {
      var tail := (r.lines + [r.line])[k..];
      assert tail == r.lines[k..] + [r.line];
      assert tail[..|tail| - 1] == r.lines[k..];
      assert (r.lines + [r.line])[..k] == r.lines[..k];
    }
  }

  /** What the oversized branch keeps: when the candidate line overflows and
      the word alone is too wide, the lines before are untouched and the new
      fragments plus the new gathered line are exactly the word. The words
      gathered in `line` are not among them: they are lost. */
  lemma DynamicOversizedKeepsOnlyTheWord(measure: Measure, maxWidth: real, a: Acc, word: string)
    requires measure(Strip(a.line + " " + word)) > maxWidth
    requires measure(word) > maxWidth
    ensures var r := WordStep(Dynamic, measure, maxWidth, a, word);
      |a.lines| <= |r.lines| && r.lines[..|a.lines|] == a.lines
      && Concat(r.lines[|a.lines|..]) + r.line == word
  {
    BreakWordFragments(measure, maxWidth, a.lines, word, |word|);
    assert word[..|word|] == word;
  }

  /** The lost text, concretely: with one unit per character and room for three,
      "ab cdef" wraps to "cde", "f"; the word "ab" is not in the output. */
  lemma DynamicDropsGatheredWords(measure: Measure)
    requires UnitWidth(measure)
    ensures WrapLines(Dynamic, measure, 3.0, "ab cdef") == ["cde", "f"]
  {
    DropWords();
    DropFold(measure);
    DropText();
    OneParagraph(Dynamic, measure, 3.0, "ab cdef", ["ab", "cdef"], Acc(["cde"], "f"));
  }

  lemma DropText()
    ensures Trimmed("ab cdef") && '\n' !in "ab cdef"
  {
  }

  lemma DropWords()
    ensures WordsOf("ab cdef") == ["ab", "cdef"]
  {
    SplitAround("ab", "cdef", ' ');
    SplitNoSep("ab", ' ');
    SplitNoSep("cdef", ' ');
  }

  lemma DropFold(measure: Measure)
    requires UnitWidth(measure)
    ensures Words(Dynamic, measure, 3.0, Acc([], ""), ["ab", "cdef"], 2) == Acc(["cde"], "f")
  {
    StripSpacePrefix("ab");
    assert Words(Dynamic, measure, 3.0, Acc([], ""), ["ab", "cdef"], 1) == Acc([], "ab");
    DropBreak(measure);
  }

  lemma DropBreak(measure: Measure)
    requires UnitWidth(measure)
    ensures WordStep(Dynamic, measure, 3.0, Acc([], "ab"), "cdef") == Acc(["cde"], "f")
  {
    DropText();
    StripKeeps("ab cdef");
    DropChars(measure);
  }

  lemma DropChars(measure: Measure)
    requires UnitWidth(measure)
    ensures BreakWord(measure, 3.0, Acc([], ""), "cdef", 4) == Acc(["cde"], "f")
  {
    var w := "cdef";
    var e := Acc([], "");
    assert BreakWord(measure, 3.0, e, w, 1) == Acc([], "c");
    assert BreakWord(measure, 3.0, e, w, 2) == Acc([], "cd");
    assert BreakWord(measure, 3.0, e, w, 3) == Acc([], "cde");
  }

  // ---------------------------------------------------------------------------
  // template6_wrap_text

  /** Every line of `template6_wrap_text` is empty, fits, or is one whole word of
      the paragraph: a word that is too wide is emitted unbroken. */
  lemma PlainLinesFitOrAreWords(measure: Measure, maxWidth: real, p: string)
    ensures var r := WrapParagraph(Plain, measure, maxWidth, p);
      forall i :: 0 <= i < |r| ==> r[i] == "" || measure(r[i]) <= maxWidth || r[i] in WordsOf(p)
  {
    var ws := WordsOf(p);
    PlainWordsFitOrAreWords(measure, maxWidth, ws, |ws|);
  }

  lemma {:induction false} PlainWordsFitOrAreWords(measure: Measure, maxWidth: real, ws: seq<string>, n: nat)
    requires n <= |ws|
    ensures var a := Words(Plain, measure, maxWidth, Acc([], ""), ws, n);
      forall l :: l in a.lines + [a.line] ==> l == "" || measure(l) <= maxWidth || l in ws
  {
    if n > 0 {
      PlainWordsFitOrAreWords(measure, maxWidth, ws, n - 1);
    }
  }

  /** In `template6_wrap_text`, a first word that is too wide by itself is
      preceded by an empty line: the gathered line is appended even when it is
      still empty. The width function must be monotone for the second word not
      to fit after the first. */
  lemma PlainOversizedFirstWord(measure: Measure, maxWidth: real, p: string)
    requires CleanParagraph(p)
    requires Monotone(measure)
    requires measure(WordsOf(p)[0]) > maxWidth
    ensures var r := WrapParagraph(Plain, measure, maxWidth, p);
      |r| >= 2 && r[0] == "" && r[1] == WordsOf(p)[0]
  {
    var ws := WordsOf(p);
    CleanParagraphNotBlank(p);
    if |ws| == 1 {
      CleanTrimmed(ws, 0);
      PlainFirst(measure, maxWidth, ws);
    } else {
      PlainFirstTwo(measure, maxWidth, ws, |ws|);
    }
  }

  /** An oversized first word is preceded by the still empty line. */
  lemma PlainFirst(measure: Measure, maxWidth: real, ws: seq<string>)
    requires 1 <= |ws| && Trimmed(ws[0])
    requires measure(ws[0]) > maxWidth
    ensures Words(Plain, measure, maxWidth, Acc([], ""), ws, 1) == Acc([""], ws[0])
  {
    StripCandidate("", ws[0]);
  }

  lemma {:induction false} PlainFirstTwo(measure: Measure, maxWidth: real, ws: seq<string>, n: nat)
    requires 2 <= n <= |ws|
    requires CleanWords(ws)
    requires Monotone(measure)
    requires measure(ws[0]) > maxWidth
    ensures OversizedFirst(Words(Plain, measure, maxWidth, Acc([], ""), ws, n).lines, ws[0])
  {
    var a := Words(Plain, measure, maxWidth, Acc([], ""), ws, n - 1);
    if n == 2 {
      CleanTrimmed(ws, 0);
      CleanTrimmed(ws, n - 1);
      PlainFirst(measure, maxWidth, ws);
      PlainSecond(measure, maxWidth, a, ws[0], ws[n - 1]);
    } else {
      PlainFirstTwo(measure, maxWidth, ws, n - 1);
      KeepFirstTwo(measure, maxWidth, a, ws[0], ws[n - 1]);
    }
    WordsNext(Plain, measure, maxWidth, ws, n, a);
  }

  /** The second word after an oversized first one starts a new line. */
  lemma PlainSecond(measure: Measure, maxWidth: real, a: Acc, w0: string, w1: string)
    requires a == Acc([""], w0)
    requires Trimmed(w0) && Trimmed(w1)
    requires Monotone(measure)
    requires measure(w0) > maxWidth
    ensures OversizedFirst(WordStep(Plain, measure, maxWidth, a, w1).lines, w0)
  {
    StripCandidate(w0, w1);
    MonotoneAppend(measure, w0, " " + w1);
    assert w0 + " " + w1 == w0 + (" " + w1);
  }

  /** The output starts with an empty line and then the word `w`. */
  predicate OversizedFirst(lines: seq<string>, w: string) {
    |lines| >= 2 && lines[0] == "" && lines[1] == w
  }

  /** Later words leave the first two lines alone. */
  lemma KeepFirstTwo(measure: Measure, maxWidth: real, a: Acc, w0: string, w: string)
    requires OversizedFirst(a.lines, w0)
    ensures OversizedFirst(WordStep(Plain, measure, maxWidth, a, w).lines, w0)
  {
    WordStepExtends(Plain, measure, maxWidth, a, w);
    var r := WordStep(Plain, measure, maxWidth, a, w).lines;
    assert r[..|a.lines|][0] == r[0] && r[..|a.lines|][1] == r[1];
  }

  /** Drops the one empty line `template6_wrap_text` may put first. */
  function DropLeadingEmpty(r: seq<string>): seq<string> {
    if r != [] && r[0] == "" then r[1..] else r
  }

  /** `template6_wrap_text` loses no text of a clean paragraph: apart from a
      possible empty first line, its lines are non-empty and joined by single
      spaces give the paragraph back. */
  lemma PlainKeepsAllText(measure: Measure, maxWidth: real, p: string)
    requires CleanParagraph(p)
    ensures var r := WrapParagraph(Plain, measure, maxWidth, p);
      |r| >= 1 && "" !in DropLeadingEmpty(r) && Join(DropLeadingEmpty(r), ' ') == p
  {
    var ws := WordsOf(p);
    CleanParagraphNotBlank(p);
    PlainWordsKeep(measure, maxWidth, ws, |ws|);
    var a := Words(Plain, measure, maxWidth, Acc([], ""), ws, |ws|);
    DropLeadingEmptySnoc(a.lines, a.line);
    assert ws[..|ws|] == ws;
    JoinSplit(p, ' ');
  }

  lemma DropLeadingEmptySnoc(lines: seq<string>, line: string)
    requires line != ""
    ensures DropLeadingEmpty(lines + [line]) == DropLeadingEmpty(lines) + [line]
  {
    if lines != [] && lines[0] == "" {
      assert (lines + [line])[1..] == lines[1..] + [line];
    }
  }

  /** The invariant of the word loop of `template6_wrap_text` over clean words. */
  predicate PlainState(a: Acc, text: string) {
    Trimmed(a.line)
    && "" !in DropLeadingEmpty(a.lines)
    && Join(DropLeadingEmpty(a.lines) + [a.line], ' ') == text
  }

  /** One word of `template6_wrap_text` keeps the loop invariant. */
  lemma PlainStep(measure: Measure, maxWidth: real, a: Acc, text: string, w: string)
    requires PlainState(a, text)
    requires Trimmed(w)
    ensures PlainState(WordStep(Plain, measure, maxWidth, a, w), text + " " + w)
  {
    StripCandidate(a.line, w);
    var q := DropLeadingEmpty(a.lines);
    var test := a.line + " " + w;
    if measure(test) <= maxWidth {
      PlainFit(q, a.line, w);
    } else {
      DropLeadingEmptySnoc(a.lines, a.line);
      PlainBreak(q, a.line, w);
    }
  }

  lemma PlainFit(q: seq<string>, line: string, w: string)
    requires Trimmed(line) && Trimmed(w)
    ensures Trimmed(line + " " + w)
    ensures Join(q + [line + " " + w], ' ') == Join(q + [line], ' ') + " " + w
  {
    var test := line + " " + w;
    assert test[0] == line[0] && test[|test| - 1] == w[|w| - 1];
    GlueJoin(q, line, w, ' ');
    assert line + [' '] + w == test;
  }

  lemma PlainBreak(q: seq<string>, line: string, w: string)
    requires line != ""
    ensures Join((q + [line]) + [w], ' ') == Join(q + [line], ' ') + " " + w
  {
    var q' := q + [line];
    assert (q' + [w])[..|q'|] == q';
  }

  lemma {:induction false} PlainWordsKeep(measure: Measure, maxWidth: real, ws: seq<string>, n: nat)
    requires 1 <= n <= |ws|
    requires CleanWords(ws)
    ensures PlainState(Words(Plain, measure, maxWidth, Acc([], ""), ws, n), Join(ws[..n], ' '))
  {
    var w := ws[n - 1];
    CleanTrimmed(ws, n - 1);
    if n == 1 {
      StripCandidate("", w);
      assert ws[..1] == [w];
      assert w[0] == ws[0][0];
    } else {
      PlainWordsKeep(measure, maxWidth, ws, n - 1);
      var a := Words(Plain, measure, maxWidth, Acc([], ""), ws, n - 1);
      JoinSnoc(ws, n - 1, ' ');
      PlainStep(measure, maxWidth, a, Join(ws[..n - 1], ' '), w);
      WordsNext(Plain, measure, maxWidth, ws, n, a);
    }
  }
}
