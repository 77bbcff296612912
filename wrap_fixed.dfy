/** A corrected word loop for `wrap_text_dynamic`: in the branch for a word
    too wide by itself, the gathered line is emitted before the word is cut
    into fragments. With that change no text is lost: apart from the spaces
    between words, the output lines spell out the paragraph. */
module WrapFixed {
  import opened PyStrings
  import opened Wrap
  import opened WrapFacts

  /** One word of the corrected loop. */
  function FixedStep(measure: Measure, maxWidth: real, a: Acc, word: string): Acc {
    var test := Strip(a.line + " " + word);
    if measure(test) <= maxWidth then Acc(a.lines, test)
    else if measure(word) > maxWidth then BreakWord(measure, maxWidth, Acc(Flush(a), ""), word, |word|)
    else Acc(Flush(a), word)
  }

  /** The corrected loop over the first `n` words. */
  function FixedWords(measure: Measure, maxWidth: real, ws: seq<string>, n: nat): Acc
    requires n <= |ws|
  {
    if n == 0 then Acc([], "")
    else FixedStep(measure, maxWidth, FixedWords(measure, maxWidth, ws, n - 1), ws[n - 1])
  }

  /** The corrected wrapper on one paragraph. */
  function FixedParagraph(measure: Measure, maxWidth: real, p: string): seq<string> {
    if Strip(p) == "" then [""]
    else Flush(FixedWords(measure, maxWidth, WordsOf(p), |WordsOf(p)|))
  }

  /** A string with its `' '` characters removed. */
  function Squeeze(s: string): string {
    if s == [] then [] else Squeeze(s[..|s| - 1]) + (if s[|s| - 1] == ' ' then [] else [s[|s| - 1]])
  }

  lemma {:induction false} SqueezeAppend(a: string, b: string)
    ensures Squeeze(a + b) == Squeeze(a) + Squeeze(b)
    decreases |b|
  {
    if b == [] {
      assert a + b == a;
    } else {
      var init := b[..|b| - 1];
      assert (a + b)[..|a + b| - 1] == a + init;
      SqueezeAppend(a, init);
      SeqAssoc(Squeeze(a), Squeeze(init), if b[|b| - 1] == ' ' then [] else [b[|b| - 1]]);
    }
  }

  /** A word without whitespace loses nothing. */
  lemma {:induction false} SqueezeWord(w: string)
    requires forall i :: 0 <= i < |w| ==> !IsSpace(w[i])
    ensures Squeeze(w) == w
  {
    if w != [] {
      var init := w[..|w| - 1];
      assert forall i :: 0 <= i < |init| ==> init[i] == w[i];
      SqueezeWord(init);
      assert IsSpace(' ');
      assert w == init + [w[|w| - 1]];
    }
  }

  lemma {:induction false} ConcatAppend(xs: seq<string>, ys: seq<string>)
    ensures Concat(xs + ys) == Concat(xs) + Concat(ys)
    decreases |ys|
  {
    if ys == [] {
      assert xs + ys == xs;
    } else {
      var init := ys[..|ys| - 1];
      assert (xs + ys)[..|xs + ys| - 1] == xs + init;
      ConcatAppend(xs, init);
      SeqAssoc(Concat(xs), Concat(init), ys[|ys| - 1]);
    }
  }

  /** Everything the loop holds, with spaces removed: the emitted lines and
      the gathered line. */
  function Held(a: Acc): string {
    Squeeze(Concat(a.lines) + a.line)
  }

  /** Emitting the gathered line keeps what is held. */
  lemma FlushHeld(a: Acc)
    ensures Concat(Flush(a)) == Concat(a.lines) + a.line
  {
    if a.line != "" {
      assert (a.lines + [a.line])[..|a.lines|] == a.lines;
    } else {
      assert Concat(a.lines) + a.line == Concat(a.lines);
    }
  }

  /** The state of the corrected loop: the gathered line is empty or has no
      space at either end. */
  predicate LineEdges(a: Acc) {
    a.line == "" || Trimmed(a.line)
  }

  /** The gathered line after the character fallback is a piece of the word. */
  lemma BrokenEdges(measure: Measure, maxWidth: real, lines0: seq<string>, w: string)
    requires CleanWord(w)
    ensures LineEdges(BreakWord(measure, maxWidth, Acc(lines0, ""), w, |w|))
  {
    var r := BreakWord(measure, maxWidth, Acc(lines0, ""), w, |w|);
    BreakWordLine(measure, maxWidth, Acc(lines0, ""), w, |w|);
    BreakWordFragments(measure, maxWidth, lines0, w, |w|);
    assert w[..|w|] == w;
    var pre := Concat(r.lines[|lines0|..]);
    assert pre + r.line == w;
    assert r.line[0] == w[|pre|];
    assert r.line[|r.line| - 1] == w[|w| - 1];
  }

  /** A fitting word is glued to the gathered line with one space. */
  lemma FitHeld(lines: seq<string>, line: string, w: string, text: string)
    requires Squeeze(Concat(lines) + line) == text
    requires CleanWord(w) && (line == "" || Trimmed(line))
    ensures var test := if line == "" then w else line + " " + w;
      Squeeze(Concat(lines) + test) == text + w
  {
    var c := Concat(lines);
    SqueezeWord(w);
    if line == "" {
      SqueezeAppend(c, w);
      assert c + line == c;
    } else {
      var sw := " " + w;
      assert line + " " + w == line + sw;
      SeqAssoc(c, line, sw);
      SqueezeAppend(c + line, sw);
      SqueezeAppend(" ", w);
      assert Squeeze(" ") == "" by {
        assert " "[..0] == "";
      }
    }
  }

  /** Starting a new line with the word adds it to what is held. */
  lemma NewLineHeld(a: Acc, w: string, text: string)
    requires Held(a) == text && CleanWord(w)
    ensures Held(Acc(Flush(a), w)) == text + w
  {
    FlushHeld(a);
    SqueezeAppend(Concat(a.lines) + a.line, w);
    SqueezeWord(w);
  }

  /** Cutting the word into fragments after emitting the line adds it to what is held. */
  lemma BrokenHeld(measure: Measure, maxWidth: real, a: Acc, w: string, text: string)
    requires Held(a) == text && CleanWord(w)
    ensures Held(BreakWord(measure, maxWidth, Acc(Flush(a), ""), w, |w|)) == text + w
  {
    var f := Flush(a);
    FlushHeld(a);
    FragmentsSpell(measure, maxWidth, f, w);
    SqueezeAppend(Concat(f), w);
    SqueezeWord(w);
  }

  /** After the character fallback, the lines and the gathered line spell
      out the lines before it and then the word. */
  lemma FragmentsSpell(measure: Measure, maxWidth: real, f: seq<string>, w: string)
    ensures var r := BreakWord(measure, maxWidth, Acc(f, ""), w, |w|);
      Concat(r.lines) + r.line == Concat(f) + w
  {
    var r := BreakWord(measure, maxWidth, Acc(f, ""), w, |w|);
    BreakWordFragments(measure, maxWidth, f, w, |w|);
    assert w[..|w|] == w;
    var tail := r.lines[|f|..];
    assert r.lines == f + tail;
    ConcatAppend(f, tail);
    SeqAssoc(Concat(f), Concat(tail), r.line);
  }

  /** One word of the corrected loop adds exactly that word to what is held. */
  lemma FixedStepHeld(measure: Measure, maxWidth: real, a: Acc, w: string, text: string)
    requires Held(a) == text && LineEdges(a) && CleanWord(w)
    ensures var r := FixedStep(measure, maxWidth, a, w);
      Held(r) == text + w && LineEdges(r)
  {
    assert Trimmed(w) by {
      assert !IsSpace(w[0]) && !IsSpace(w[|w| - 1]);
    }
    StripCandidate(a.line, w);
    var test := Strip(a.line + " " + w);
    if measure(test) <= maxWidth {
      FitHeld(a.lines, a.line, w, text);
      if a.line != "" {
        PlainFit([], a.line, w);
      }
    } else if measure(w) > maxWidth {
      BrokenHeld(measure, maxWidth, a, w, text);
      BrokenEdges(measure, maxWidth, Flush(a), w);
    } else {
      NewLineHeld(a, w, text);
    }
  }

  /** The corrected loop over clean words holds exactly their letters. */
  lemma {:induction false} FixedWordsHeld(measure: Measure, maxWidth: real, ws: seq<string>, n: nat)
    requires n <= |ws|
    requires CleanWords(ws)
    ensures var a := FixedWords(measure, maxWidth, ws, n);
      Held(a) == Concat(ws[..n]) && LineEdges(a)
  {
    if n == 0 {
      assert Held(Acc([], "")) == "";
    } else {
      FixedWordsHeld(measure, maxWidth, ws, n - 1);
      var a := FixedWords(measure, maxWidth, ws, n - 1);
      assert CleanWord(ws[n - 1]);
      FixedStepHeld(measure, maxWidth, a, ws[n - 1], Concat(ws[..n - 1]));
      assert ws[..n][..n - 1] == ws[..n - 1];
    }
  }

  /** The corrected wrapper loses no text of a clean paragraph: its lines,
      with spaces removed, spell out the paragraph's words in order. */
  lemma FixedKeepsAllText(measure: Measure, maxWidth: real, p: string)
    requires CleanParagraph(p)
    ensures Squeeze(Concat(FixedParagraph(measure, maxWidth, p))) == Concat(WordsOf(p))
  {
    var ws := WordsOf(p);
    CleanParagraphNotBlank(p);
    FixedWordsHeld(measure, maxWidth, ws, |ws|);
    var a := FixedWords(measure, maxWidth, ws, |ws|);
    FlushHeld(a);
    assert ws[..|ws|] == ws;
  }

  // ---------------------------------------------------------------------------
  // The example that shows the difference

  /** As written, "ab cdef" with one unit per character and room for three
      loses letters: what is left of the output is shorter than the words. */
  lemma DynamicLosesText(measure: Measure)
    requires UnitWidth(measure)
    ensures Squeeze(Concat(WrapLines(Dynamic, measure, 3.0, "ab cdef"))) != Concat(WordsOf("ab cdef"))
  {
    DynamicDropsGatheredWords(measure);
    DropWords();
    ConcatTwo("cde", "f");
    ConcatTwo("ab", "cdef");
    ShorterLoses(["cde", "f"], ["ab", "cdef"]);
  }

  lemma ConcatTwo(x: string, y: string)
    ensures Concat([x, y]) == x + y
  {
    assert [x][..0] == [];
    assert Concat([x]) == "" + x == x;
    assert [x, y][..1] == [x];
  }

  /** Squeezing never lengthens. */
  lemma {:induction false} SqueezeShorter(s: string)
    ensures |Squeeze(s)| <= |s|
  {
    if s != [] {
      SqueezeShorter(s[..|s| - 1]);
    }
  }

  lemma ShorterLoses(out: seq<string>, ws: seq<string>)
    requires |Concat(out)| < |Concat(ws)|
    ensures Squeeze(Concat(out)) != Concat(ws)
  {
    SqueezeShorter(Concat(out));
  }

  /** Corrected, the same input gives "ab", "cde", "f". */
  lemma FixedExample(measure: Measure)
    requires UnitWidth(measure)
    ensures FixedParagraph(measure, 3.0, "ab cdef") == ["ab", "cde", "f"]
  {
    DropText();
    StripKeeps("ab cdef");
    DropWords();
    FixedFold(measure, ["ab", "cdef"]);
  }

  lemma FixedFold(measure: Measure, ws: seq<string>)
    requires UnitWidth(measure) && ws == ["ab", "cdef"]
    ensures FixedWords(measure, 3.0, ws, 2) == Acc(["ab", "cde"], "f")
  {
    FixedFirst(measure, ws);
    FixedSecond(measure);
  }

  lemma FixedFirst(measure: Measure, ws: seq<string>)
    requires UnitWidth(measure) && ws == ["ab", "cdef"]
    ensures FixedWords(measure, 3.0, ws, 1) == Acc([], "ab")
  {
    StripSpacePrefix("ab");
  }

  lemma FixedSecond(measure: Measure)
    requires UnitWidth(measure)
    ensures FixedStep(measure, 3.0, Acc([], "ab"), "cdef") == Acc(["ab", "cde"], "f")
  {
    DropText();
    StripKeeps("ab cdef");
    assert Strip("ab" + " " + "cdef") == "ab cdef";
    assert measure("ab cdef") > 3.0 && measure("cdef") > 3.0;
    assert Flush(Acc([], "ab")) == ["ab"];
    FixedBreak(measure, ["ab"]);
    assert ["ab"] + ["cde"] == ["ab", "cde"];
  }

  lemma FixedBreak(measure: Measure, pre: seq<string>)
    requires UnitWidth(measure)
    ensures BreakWord(measure, 3.0, Acc(pre, ""), "cdef", 4) == Acc(pre + ["cde"], "f")
  {
    DropChars(measure);
    BreakWordFrom(measure, 3.0, pre, [], "cdef", 4);
    assert pre + [] == pre;
  }
}
