/** The greedy word wrappers of templates.py: `wrap_text_dynamic` (shared by
    templates 1 to 5, with a character-by-character fallback for words wider
    than the column) and `template6_wrap_text` (duplicated as
    `template7_wrap_text`, without that fallback).

    Both are specified by one left fold over paragraphs and words; the two
    differ only in what one word does to the fold state (`WordStep`). The
    measurement service `c.stringWidth` is the parameter `measure`, for the
    font and size the caller has selected. */
module Wrap {
  import opened PyStrings

  /** Width of a string in the current font and size. */
  type Measure = string -> real

  /** Which of the two wrappers of the source. */
  datatype Wrapper =
    | Dynamic  // wrap_text_dynamic
    | Plain    // template6_wrap_text and template7_wrap_text

  /** State of the word loop: `lines` emitted so far and the `line` being gathered.
      Inside the oversized-word branch `line` holds the variable `sub`. */
  datatype Acc = Acc(lines: seq<string>, line: string)

  /** One character of the oversized-word branch. */
  function CharStep(measure: Measure, maxWidth: real, a: Acc, ch: char): Acc {
    if measure(a.line + [ch]) <= maxWidth then Acc(a.lines, a.line + [ch])
    else Acc(if a.line != "" then a.lines + [a.line] else a.lines, [ch])
  }

  /** The per-character loop over the first `n` characters of `w`, from `a`. */
  function BreakWord(measure: Measure, maxWidth: real, a: Acc, w: string, n: nat): Acc
    requires n <= |w|
  {
    if n == 0 then a
    else CharStep(measure, maxWidth, BreakWord(measure, maxWidth, a, w, n - 1), w[n - 1])
  }

  /** One word of the word loop. In the oversized branch of `Dynamic` the
      gathered `line` is replaced by the fragment of the broken word, never
      emitted. */
  function WordStep(kind: Wrapper, measure: Measure, maxWidth: real, a: Acc, word: string): Acc {
    var test := Strip(a.line + " " + word);
    if measure(test) <= maxWidth then Acc(a.lines, test)
    else if kind == Plain then Acc(a.lines + [a.line], word)
    else if measure(word) > maxWidth then BreakWord(measure, maxWidth, Acc(a.lines, ""), word, |word|)
    else Acc(if a.line != "" then a.lines + [a.line] else a.lines, word)
  }

  /** The word loop over the first `n` words of `ws`, from `a`. */
  function Words(kind: Wrapper, measure: Measure, maxWidth: real, a: Acc, ws: seq<string>, n: nat): Acc
    requires n <= |ws|
  {
    if n == 0 then a
    else WordStep(kind, measure, maxWidth, Words(kind, measure, maxWidth, a, ws, n - 1), ws[n - 1])
  }

  /** The final `if line: lines.append(line)`. */
  function Flush(a: Acc): seq<string> {
    if a.line != "" then a.lines + [a.line] else a.lines
  }

  /** The words of a paragraph: `paragraph.split(" ")`. */
  function WordsOf(p: string): seq<string> {
    Split(p, ' ')
  }

  /** The lines one paragraph contributes (`not paragraph.strip()` marks a blank one). */
  function WrapParagraph(kind: Wrapper, measure: Measure, maxWidth: real, p: string): seq<string> {
    if Strip(p) == "" then [""]
    else Flush(Words(kind, measure, maxWidth, Acc([], ""), WordsOf(p), |WordsOf(p)|))
  }

  /** The lines of the first `n` paragraphs of `ps`, in order. */
  function WrapParagraphs(kind: Wrapper, measure: Measure, maxWidth: real, ps: seq<string>, n: nat): seq<string>
    requires n <= |ps|
  {
    if n == 0 then []
    else WrapParagraphs(kind, measure, maxWidth, ps, n - 1) + WrapParagraph(kind, measure, maxWidth, ps[n - 1])
  }

  /** The paragraphs of a text: `(text or "").split("\n")` (a missing text is passed as ""). */
  function ParagraphsOf(text: string): seq<string> {
    Split(text, '\n')
  }

  /** What the wrapper returns for `text`. */
  function WrapLines(kind: Wrapper, measure: Measure, maxWidth: real, text: string): seq<string> {
    WrapParagraphs(kind, measure, maxWidth, ParagraphsOf(text), |ParagraphsOf(text)|)
  }


  /** `wrap_text_dynamic(c, text, font_name, font_size, max_width)`: the
      paragraph loop; the word loop and the character loop of the source are
      the methods below. */
  method WrapTextDynamic(measure: Measure, text: string, maxWidth: real) returns (lines: seq<string>)
    ensures lines == WrapLines(Dynamic, measure, maxWidth, text)
  {
    lines := [];
    var paragraphs := ParagraphsOf(text);
    var k := 0;
    while k < |paragraphs|
      invariant 0 <= k <= |paragraphs|
      invariant lines == WrapParagraphs(Dynamic, measure, maxWidth, paragraphs, k)
    {
      var paragraph := paragraphs[k];
      ghost var before := lines;
      if Strip(paragraph) == "" {
        lines := lines + [""];
      } else {
        lines := WrapWordsDynamic(measure, lines, WordsOf(paragraph), maxWidth);
        FlushFrom(Dynamic, measure, maxWidth, before, WordsOf(paragraph));
      }
      assert lines == before + WrapParagraph(Dynamic, measure, maxWidth, paragraph);
      assert WrapParagraphs(Dynamic, measure, maxWidth, paragraphs, k + 1) == lines;
      k := k + 1;
    }
  }

  /** The word loop of `wrap_text_dynamic` for one paragraph, appending to the
      shared list `lines`. */
  method WrapWordsDynamic(measure: Measure, lines0: seq<string>, words: seq<string>, maxWidth: real)
    returns (lines: seq<string>)
    ensures lines == Flush(Words(Dynamic, measure, maxWidth, Acc(lines0, ""), words, |words|))
  {
    lines := lines0;
    var line := "";
    var i := 0;
    while i < |words|
      invariant 0 <= i <= |words|
      invariant Acc(lines, line) == Words(Dynamic, measure, maxWidth, Acc(lines0, ""), words, i)
    {
      var word := words[i];
      var testLine := Strip(line + " " + word);
      if measure(testLine) <= maxWidth {
        line := testLine;
      } else if measure(word) > maxWidth {
        var sub;
        lines, sub := BreakLongWord(measure, lines, word, maxWidth);
        if sub != "" {
          line := sub;
        } else {
          line := "";
        }
      } else {
        if line != "" {
          lines := lines + [line];
        }
        line := word;
      }
      i := i + 1;
    }
    if line != "" {
      lines := lines + [line];
    }
  }

  /** The character loop of the oversized-word branch: fragments of `word`
      are appended to `lines`, the last one is returned as `sub`. */
  method BreakLongWord(measure: Measure, lines0: seq<string>, word: string, maxWidth: real)
    returns (lines: seq<string>, sub: string)
    ensures Acc(lines, sub) == BreakWord(measure, maxWidth, Acc(lines0, ""), word, |word|)
  {
    lines, sub := lines0, "";
    var j := 0;
    while j < |word|
      invariant 0 <= j <= |word|
      invariant Acc(lines, sub) == BreakWord(measure, maxWidth, Acc(lines0, ""), word, j)
    {
      var ch := word[j];
      if measure(sub + [ch]) <= maxWidth {
        sub := sub + [ch];
      } else {
        if sub != "" {
          lines := lines + [sub];
        }
        sub := [ch];
      }
      j := j + 1;
    }
  }

  /** The character loop only appends to the lines it starts from. */
  lemma {:induction false} BreakWordFrom(measure: Measure, maxWidth: real, prefix: seq<string>, done: seq<string>, w: string, n: nat)
    requires n <= |w|
    ensures var r := BreakWord(measure, maxWidth, Acc(prefix + done, ""), w, n);
      var q := BreakWord(measure, maxWidth, Acc(done, ""), w, n);
      r == Acc(prefix + q.lines, q.line)
  {
    if n > 0 {
      BreakWordFrom(measure, maxWidth, prefix, done, w, n - 1);
      var r := BreakWord(measure, maxWidth, Acc(prefix + done, ""), w, n - 1);
      var q := BreakWord(measure, maxWidth, Acc(done, ""), w, n - 1);
      assert r.lines == prefix + q.lines;
      if r.line != "" {
        assert r.lines + [r.line] == prefix + (q.lines + [q.line]);
      }
    }
  }

  /** One word, run on lines that carry `prefix` in front of the paragraph's own. */
  lemma WordStepFrom(kind: Wrapper, measure: Measure, maxWidth: real, prefix: seq<string>, a: Acc, word: string)
    ensures var q := WordStep(kind, measure, maxWidth, a, word);
      WordStep(kind, measure, maxWidth, Acc(prefix + a.lines, a.line), word) == Acc(prefix + q.lines, q.line)
  {
    var test := Strip(a.line + " " + word);
    if measure(test) > maxWidth {
      if kind == Dynamic && measure(word) > maxWidth {
        BreakWordFrom(measure, maxWidth, prefix, a.lines, word, |word|);
      } else {
        assert (prefix + a.lines) + [a.line] == prefix + (a.lines + [a.line]);
      }
    }
  }

  /** The word loop run on a shared list of lines only appends to it. */
  lemma {:induction false} WordsFrom(kind: Wrapper, measure: Measure, maxWidth: real, prefix: seq<string>, ws: seq<string>, n: nat)
    requires n <= |ws|
    ensures var q := Words(kind, measure, maxWidth, Acc([], ""), ws, n);
      Words(kind, measure, maxWidth, Acc(prefix, ""), ws, n) == Acc(prefix + q.lines, q.line)
  {
    if n == 0 {
      assert prefix + [] == prefix;
    } else {
      WordsFrom(kind, measure, maxWidth, prefix, ws, n - 1);
      var q := Words(kind, measure, maxWidth, Acc([], ""), ws, n - 1);
      WordStepFrom(kind, measure, maxWidth, prefix, q, ws[n - 1]);
    }
  }

  /** The lines a paragraph's word loop appends to `prefix` are the paragraph's own. */
  lemma FlushFrom(kind: Wrapper, measure: Measure, maxWidth: real, prefix: seq<string>, ws: seq<string>)
    ensures Flush(Words(kind, measure, maxWidth, Acc(prefix, ""), ws, |ws|))
      == prefix + Flush(Words(kind, measure, maxWidth, Acc([], ""), ws, |ws|))
  {
    WordsFrom(kind, measure, maxWidth, prefix, ws, |ws|);
    var q := Words(kind, measure, maxWidth, Acc([], ""), ws, |ws|);
    if q.line != "" {
      assert (prefix + q.lines) + [q.line] == prefix + (q.lines + [q.line]);
    }
  }

  /** `template6_wrap_text` (and its copy `template7_wrap_text`): the
      paragraph loop; the word loop is the method below. */
  method WrapTextPlain(measure: Measure, text: string, maxWidth: real) returns (lines: seq<string>)
    ensures lines == WrapLines(Plain, measure, maxWidth, text)
  {
    lines := [];
    var paragraphs := ParagraphsOf(text);
    var k := 0;
    while k < |paragraphs|
      invariant 0 <= k <= |paragraphs|
      invariant lines == WrapParagraphs(Plain, measure, maxWidth, paragraphs, k)
    {
      var paragraph := paragraphs[k];
      ghost var before := lines;
      if Strip(paragraph) == "" {
        lines := lines + [""];
      } else {
        lines := WrapWordsPlain(measure, lines, WordsOf(paragraph), maxWidth);
        FlushFrom(Plain, measure, maxWidth, before, WordsOf(paragraph));
      }
      assert lines == before + WrapParagraph(Plain, measure, maxWidth, paragraph);
      assert WrapParagraphs(Plain, measure, maxWidth, paragraphs, k + 1) == lines;
      k := k + 1;
    }
  }

  /** The word loop of `template6_wrap_text` for one paragraph, appending to `lines`. */
  method WrapWordsPlain(measure: Measure, lines0: seq<string>, words: seq<string>, maxWidth: real)
    returns (lines: seq<string>)
    ensures lines == Flush(Words(Plain, measure, maxWidth, Acc(lines0, ""), words, |words|))
  {
    lines := lines0;
    var line := "";
    var i := 0;
    while i < |words|
      invariant 0 <= i <= |words|
      invariant Acc(lines, line) == Words(Plain, measure, maxWidth, Acc(lines0, ""), words, i)
    {
      var word := words[i];
      var testLine := Strip(line + " " + word);
      if measure(testLine) <= maxWidth {
        line := testLine;
      } else {
        lines := lines + [line];
        line := word;
      }
      i := i + 1;
    }
    if line != "" {
      lines := lines + [line];
    }
  }
}
