/** What the two-column flow guarantees: headers at most once per column,
    placements above the bottom margin, forward-only cursors, why a page ends,
    the banner rule, and when the driver finishes. */
module FlowFacts {
  import opened PyStrings
  import opened Wrap
  import opened Flow

  // ---------------------------------------------------------------------------
  // Reading a trace

  /** The header texts drawn in column `c`, in order. */
  function Titles(marks: seq<Mark>, c: Column): seq<string> {
    if marks == [] then [] else Titles(marks[..|marks| - 1], c) + TitleOf(marks[|marks| - 1], c)
  }

  function TitleOf(m: Mark, c: Column): seq<string> {
    if m.Text? && m.column == c && m.role.HeaderOf? then [m.role.title] else []
  }

  /** The number of page breaks. */
  function PageBreaks(marks: seq<Mark>): nat {
    if marks == [] then 0 else PageBreaks(marks[..|marks| - 1]) + (if marks[|marks| - 1] == NewPage then 1 else 0)
  }

  predicate NoDup(xs: seq<string>) {
    forall i, j :: 0 <= i < j < |xs| ==> xs[i] != xs[j]
  }

  function ToSet(xs: seq<string>): set<string> {
    set x | x in xs
  }

  function Other(c: Column): Column {
    if c == Sidebar then Main else Sidebar
  }

  /** A header or body line of column `c`. */
  predicate LayoutMark(m: Mark, c: Column) {
    m.Text? && m.column == c && (m.role.HeaderOf? || m.role == Body)
  }

  predicate AllLayout(marks: seq<Mark>) {
    forall i :: 0 <= i < |marks| ==> LayoutMark(marks[i], Sidebar) || LayoutMark(marks[i], Main)
  }

  /** The space check that guarded a drawn header or body line. */
  predicate FitAbove(st: Style, bottom: real, m: Mark) {
    m.Text? ==> (m.role.HeaderOf? ==> m.y - HeaderRoom(st) > bottom) && (m.role == Body ==> m.y - LineRoom(st) > bottom)
  }

  predicate AllFit(st: Style, bottom: real, marks: seq<Mark>) {
    forall i :: 0 <= i < |marks| ==> FitAbove(st, bottom, marks[i])
  }

  /** The header texts `added` draws in column `c` are new and distinct, and
      they are exactly what `p1` adds to `p0`. */
  predicate Ledger(p0: set<string>, added: seq<Mark>, c: Column, p1: set<string>) {
    var ts := Titles(added, c);
    NoDup(ts) && (forall i :: 0 <= i < |ts| ==> ts[i] !in p0) && p1 == p0 + ToSet(ts)
  }

  /** The line index of a column is within its section. */
  predicate LineInRange(lines: seq<seq<string>>, s: Col) {
    s.idx <= |lines| && (s.idx < |lines| ==> s.line == 0 || s.line < |lines[s.idx]|)
  }

  /** The column's next item does not fit: the header when it is due,
      otherwise the next body line. */
  predicate NoRoomAt(secs: seq<Section>, data: Data, lines: seq<seq<string>>, st: Style, bottom: real, s: Col)
    requires |lines| == |secs|
  {
    s.idx < |secs| && Truthy(data, secs[s.idx].content)
    && (if HeaderDue(secs, s) then s.y - HeaderRoom(st) <= bottom
        else s.line < |lines[s.idx]| && s.y - LineRoom(st) <= bottom)
  }

  // ---------------------------------------------------------------------------
  // Trace arithmetic

  lemma {:induction false} TitlesAppend(a: seq<Mark>, b: seq<Mark>, c: Column)
    ensures Titles(a + b, c) == Titles(a, c) + Titles(b, c)
    decreases |b|
  {
    if b == [] {
      assert a + b == a;
    } else {
      var init, m := b[..|b| - 1], b[|b| - 1];
      assert b == init + [m];
      assert a + b == (a + init) + [m];
      TitlesAppend(a, init, c);
      TitlesSnoc(a + init, m, c);
      TitlesSnoc(init, m, c);
      SeqAssoc(Titles(a, c), Titles(init, c), TitleOf(m, c));
    }
  }

  lemma TitlesSnoc(xs: seq<Mark>, m: Mark, c: Column)
    ensures Titles(xs + [m], c) == Titles(xs, c) + TitleOf(m, c)
  {
    assert (xs + [m])[..|xs|] == xs;
  }

  lemma {:induction false} PageBreaksAppend(a: seq<Mark>, b: seq<Mark>)
    ensures PageBreaks(a + b) == PageBreaks(a) + PageBreaks(b)
    decreases |b|
  {
    if b == [] {
      assert a + b == a;
    } else {
      PageBreaksAppend(a, b[..|b| - 1]);
      assert (a + b)[..|a + b| - 1] == a + b[..|b| - 1];
    }
  }

  lemma {:induction false} TextsHaveNoBreaks(marks: seq<Mark>)
    requires forall i :: 0 <= i < |marks| ==> marks[i].Text?
    ensures PageBreaks(marks) == 0
    decreases |marks|
  {
    if marks != [] {
      TextsHaveNoBreaks(marks[..|marks| - 1]);
    }
  }

  lemma {:induction false} TitlesOfOtherColumn(marks: seq<Mark>, c: Column)
    requires forall i :: 0 <= i < |marks| ==> !LayoutMark(marks[i], c) && !(marks[i].Text? && marks[i].column == c && marks[i].role.HeaderOf?)
    ensures Titles(marks, c) == []
    decreases |marks|
  {
    if marks != [] {
      TitlesOfOtherColumn(marks[..|marks| - 1], c);
    }
  }

  lemma LedgerNone(p: set<string>, marks: seq<Mark>, c: Column)
    requires Titles(marks, c) == []
    ensures Ledger(p, marks, c, p)
  {
    assert ToSet([]) == {};
  }

  lemma ToSetAppend(a: seq<string>, b: seq<string>)
    ensures ToSet(a + b) == ToSet(a) + ToSet(b)
  {
    forall x ensures x in ToSet(a + b) <==> x in ToSet(a) || x in ToSet(b) {
      if x in ToSet(b) {
        var i :| 0 <= i < |b| && b[i] == x;
        assert (a + b)[|a| + i] == x;
      }
    }
  }

  lemma NoDupAppend(a: seq<string>, b: seq<string>)
    requires NoDup(a) && NoDup(b)
    requires forall i :: 0 <= i < |b| ==> b[i] !in ToSet(a)
    ensures NoDup(a + b)
  {
    forall i, j | 0 <= i < j < |a + b| ensures (a + b)[i] != (a + b)[j] {
      if i < |a| <= j {
        assert (a + b)[i] in ToSet(a);
        assert (a + b)[j] == b[j - |a|];
      } else if |a| <= i {
        assert (a + b)[i] == b[i - |a|];
      }
    }
  }

  lemma LedgerCompose(p0: set<string>, a: seq<Mark>, p1: set<string>, b: seq<Mark>, p2: set<string>, c: Column)
    requires Ledger(p0, a, c, p1) && Ledger(p1, b, c, p2)
    ensures Ledger(p0, a + b, c, p2)
  {
    TitlesAppend(a, b, c);
    var ta, tb := Titles(a, c), Titles(b, c);
    ToSetAppend(ta, tb);
    NoDupAppend(ta, tb);
    forall i | 0 <= i < |ta + tb| ensures (ta + tb)[i] !in p0 {
      if i >= |ta| {
        assert (ta + tb)[i] == tb[i - |ta|];
      }
    }
  }

  lemma AllFitAppend(st: Style, bottom: real, a: seq<Mark>, b: seq<Mark>)
    requires AllFit(st, bottom, a) && AllFit(st, bottom, b)
    ensures AllFit(st, bottom, a + b)
  {
    forall i | 0 <= i < |a + b| ensures FitAbove(st, bottom, (a + b)[i]) {
      if i >= |a| { assert (a + b)[i] == b[i - |a|]; }
    }
  }

  lemma AllLayoutAppend(a: seq<Mark>, b: seq<Mark>)
    requires AllLayout(a) && AllLayout(b)
    ensures AllLayout(a + b)
  {
    forall i | 0 <= i < |a + b| ensures LayoutMark((a + b)[i], Sidebar) || LayoutMark((a + b)[i], Main) {
      if i >= |a| { assert (a + b)[i] == b[i - |a|]; }
    }
  }

  // ---------------------------------------------------------------------------
  // One column's turn

  /** A header is drawn only on the first line of a section whose header text
      the column has not printed, and it is then added to the printed set;
      otherwise the set is unchanged. The other column sees no header. */
  lemma StepHeaders(c: Column, secs: seq<Section>, data: Data, lines: seq<seq<string>>,
                    st: Style, bottom: real, s: Col)
    requires |lines| == |secs|
    ensures var r := ColumnStep(c, secs, data, lines, st, bottom, s);
      Ledger(s.printed, r.marks, c, r.col.printed)
      && Titles(r.marks, Other(c)) == []
      && (Titles(r.marks, c) != [] ==> s.idx < |secs| && s.line == 0 && Titles(r.marks, c) == [secs[s.idx].header])
  {
    StepMarks(c, secs, data, lines, st, bottom, s);
    ShapeHeaders(c, secs, st, bottom, s, ColumnStep(c, secs, data, lines, st, bottom, s));
  }

  /** What a turn draws, as `StepMarks` states it. */
  predicate Shape(c: Column, secs: seq<Section>, st: Style, bottom: real, s: Col, r: Step) {
    ShapeMarks(c, st, bottom, r) && ShapePrinted(secs, s, r)
  }

  /** At most a header and a body line, in the column, above the bottom margin. */
  predicate ShapeMarks(c: Column, st: Style, bottom: real, r: Step) {
    |r.marks| <= 2
    && (forall i :: 0 <= i < |r.marks| ==> LayoutMark(r.marks[i], c))
    && AllFit(st, bottom, r.marks)
    && (|r.marks| == 2 ==> r.marks[0].role.HeaderOf? && r.marks[1].role == Body)
    && (r.drew <==> r.marks != [] && r.marks[|r.marks| - 1].role == Body)
  }

  /** A header is drawn only for a section's first line, once, and recorded. */
  predicate ShapePrinted(secs: seq<Section>, s: Col, r: Step) {
    (r.marks != [] && r.marks[0].Text? && r.marks[0].role.HeaderOf? ==>
       s.idx < |secs| && r.marks[0].role.title == secs[s.idx].header && s.line == 0
       && r.marks[0].role.title !in s.printed && r.col.printed == s.printed + {r.marks[0].role.title})
    && (r.marks == [] || !(r.marks[0].Text? && r.marks[0].role.HeaderOf?) ==> r.col.printed == s.printed)
  }

  lemma TitlesShort(marks: seq<Mark>, c: Column)
    requires |marks| <= 2
    ensures Titles(marks, c) == if |marks| == 0 then []
                                else if |marks| == 1 then TitleOf(marks[0], c)
                                else TitleOf(marks[0], c) + TitleOf(marks[1], c)
  {
    if |marks| == 2 {
      assert marks[..1] == [marks[0]];
      assert marks[..1][..0] == [];
    } else if |marks| == 1 {
      assert marks[..0] == [];
    }
  }

  lemma ShapeHeaders(c: Column, secs: seq<Section>, st: Style, bottom: real, s: Col, r: Step)
    requires Shape(c, secs, st, bottom, s, r)
    ensures Ledger(s.printed, r.marks, c, r.col.printed)
      && Titles(r.marks, Other(c)) == []
      && (Titles(r.marks, c) != [] ==> s.idx < |secs| && s.line == 0 && Titles(r.marks, c) == [secs[s.idx].header])
  {
    TitlesShort(r.marks, c);
    TitlesShort(r.marks, Other(c));
    if r.marks == [] {
      assert ToSet([]) == {};
    } else {
      var m0 := r.marks[0];
      assert LayoutMark(m0, c);
      assert TitleOf(m0, Other(c)) == [];
      if |r.marks| == 2 {
        assert LayoutMark(r.marks[1], c) && r.marks[1].role == Body;
        assert TitleOf(r.marks[1], c) == [] && TitleOf(r.marks[1], Other(c)) == [];
      }
      assert Titles(r.marks, Other(c)) == [];
      if m0.role.HeaderOf? {
        assert Titles(r.marks, c) == [m0.role.title];
        assert ToSet([m0.role.title]) == {m0.role.title};
      } else {
        assert TitleOf(m0, c) == [];
        assert Titles(r.marks, c) == [];
        assert ToSet([]) == {};
      }
    }
  }

  /** A turn draws at most a header and then one body line, both in its own
      column, each after its space check; `drew` says whether the body line
      was drawn. */
  lemma StepMarks(c: Column, secs: seq<Section>, data: Data, lines: seq<seq<string>>,
                  st: Style, bottom: real, s: Col)
    requires |lines| == |secs|
    ensures Shape(c, secs, st, bottom, s, ColumnStep(c, secs, data, lines, st, bottom, s))
  {
    StepLayout(c, secs, data, lines, st, bottom, s);
    StepPrinted(c, secs, data, lines, st, bottom, s);
  }

  lemma StepLayout(c: Column, secs: seq<Section>, data: Data, lines: seq<seq<string>>,
                   st: Style, bottom: real, s: Col)
    requires |lines| == |secs|
    ensures ShapeMarks(c, st, bottom, ColumnStep(c, secs, data, lines, st, bottom, s))
  {
  }

  lemma StepPrinted(c: Column, secs: seq<Section>, data: Data, lines: seq<seq<string>>,
                    st: Style, bottom: real, s: Col)
    requires |lines| == |secs|
    ensures ShapePrinted(secs, s, ColumnStep(c, secs, data, lines, st, bottom, s))
  {
  }

  /** A turn keeps the line index within the current section. */
  lemma StepInRange(c: Column, secs: seq<Section>, data: Data, lines: seq<seq<string>>,
                    st: Style, bottom: real, s: Col)
    requires |lines| == |secs|
    requires LineInRange(lines, s)
    ensures LineInRange(lines, ColumnStep(c, secs, data, lines, st, bottom, s).col)
  {
  }

  /** A blocked turn ends with the column's next item not fitting. */
  lemma StepBlocked(c: Column, secs: seq<Section>, data: Data, lines: seq<seq<string>>,
                    st: Style, bottom: real, s: Col)
    requires |lines| == |secs|
    ensures var r := ColumnStep(c, secs, data, lines, st, bottom, s);
      r.blocked ==> NoRoomAt(secs, data, lines, st, bottom, r.col)
  {
  }

  /** A section whose content is not truthy is never passed. */
  lemma StepStuck(c: Column, secs: seq<Section>, data: Data, lines: seq<seq<string>>,
                  st: Style, bottom: real, s: Col, k: nat)
    requires |lines| == |secs|
    requires k < |secs| && !Truthy(data, secs[k].content) && s.idx <= k
    ensures ColumnStep(c, secs, data, lines, st, bottom, s).col.idx <= k
  {
  }

  /** Enough room for a header and a body line at height `y`. */
  predicate FreshFits(st: Style, bottom: real, y: real) {
    y - HeaderRoom(st) > bottom && y - LineRoom(st) > bottom && y - HeaderRoom(st) - LineRoom(st) > bottom
  }

  /** With room for a header and a line, a turn on a truthy section is not
      blocked and moves the cursor. */
  lemma StepMoves(c: Column, secs: seq<Section>, data: Data, lines: seq<seq<string>>,
                  st: Style, bottom: real, s: Col)
    requires |lines| == |secs|
    requires LineInRange(lines, s)
    requires s.idx < |secs| && Truthy(data, secs[s.idx].content)
    requires FreshFits(st, bottom, s.y)
    ensures var r := ColumnStep(c, secs, data, lines, st, bottom, s);
      !r.blocked && (r.col.idx != s.idx || r.col.line != s.line)
  {
  }

  lemma ShapeLayout(c: Column, secs: seq<Section>, st: Style, bottom: real, s: Col, r: Step)
    requires Shape(c, secs, st, bottom, s, r)
    ensures AllLayout(r.marks) && AllFit(st, bottom, r.marks)
  {
  }

  // ---------------------------------------------------------------------------
  // The loop of draw_content

  /** The loop draws only headers and body lines, each after its space check. */
  lemma {:induction false} LoopTrace(sSecs: seq<Section>, mSecs: seq<Section>, data: Data,
                                     sLines: seq<seq<string>>, mLines: seq<seq<string>>,
                                     st: Style, bottom: real, side: Col, main: Col)
    requires |sLines| == |sSecs| && |mLines| == |mSecs|
    ensures var r := Loop(sSecs, mSecs, data, sLines, mLines, st, bottom, side, main);
      AllLayout(r.marks) && AllFit(st, bottom, r.marks)
    decreases Left(sLines, side) + Left(mLines, main)
  {
    if !(side.idx >= |sSecs| && main.idx >= |mSecs|) {
      var a := ColumnStep(Sidebar, sSecs, data, sLines, st, bottom, side);
      StepForward(Sidebar, sSecs, data, sLines, st, bottom, side);
      StepMarks(Sidebar, sSecs, data, sLines, st, bottom, side);
      ShapeLayout(Sidebar, sSecs, st, bottom, side, a);
      if !a.blocked {
        var b := ColumnStep(Main, mSecs, data, mLines, st, bottom, main);
        StepForward(Main, mSecs, data, mLines, st, bottom, main);
        StepMarks(Main, mSecs, data, mLines, st, bottom, main);
        ShapeLayout(Main, mSecs, st, bottom, main, b);
        AllLayoutAppend(a.marks, b.marks);
        AllFitAppend(st, bottom, a.marks, b.marks);
        if !b.blocked && (a.drew || b.drew) {
          LoopTrace(sSecs, mSecs, data, sLines, mLines, st, bottom, a.col, b.col);
          var r := Loop(sSecs, mSecs, data, sLines, mLines, st, bottom, a.col, b.col);
          AllLayoutAppend(a.marks + b.marks, r.marks);
          AllFitAppend(st, bottom, a.marks + b.marks, r.marks);
        }
      }
    }
  }

  /** Over the whole loop, each column draws each header text at most once,
      only if it had not printed it, and its printed set grows by exactly the
      headers it drew. */
  lemma {:induction false} LoopHeaders(sSecs: seq<Section>, mSecs: seq<Section>, data: Data,
                                       sLines: seq<seq<string>>, mLines: seq<seq<string>>,
                                       st: Style, bottom: real, side: Col, main: Col)
    requires |sLines| == |sSecs| && |mLines| == |mSecs|
    ensures var r := Loop(sSecs, mSecs, data, sLines, mLines, st, bottom, side, main);
      Ledger(side.printed, r.marks, Sidebar, r.side.printed) && Ledger(main.printed, r.marks, Main, r.main.printed)
    decreases Left(sLines, side) + Left(mLines, main)
  {
    if side.idx >= |sSecs| && main.idx >= |mSecs| {
      LedgerNone(side.printed, [], Sidebar);
      LedgerNone(main.printed, [], Main);
    } else {
      var a := ColumnStep(Sidebar, sSecs, data, sLines, st, bottom, side);
      StepForward(Sidebar, sSecs, data, sLines, st, bottom, side);
      StepHeaders(Sidebar, sSecs, data, sLines, st, bottom, side);
      LedgerNone(main.printed, a.marks, Main);
      if !a.blocked {
        var b := ColumnStep(Main, mSecs, data, mLines, st, bottom, main);
        StepForward(Main, mSecs, data, mLines, st, bottom, main);
        StepHeaders(Main, mSecs, data, mLines, st, bottom, main);
        LedgerNone(a.col.printed, b.marks, Sidebar);
        LedgerCompose(side.printed, a.marks, a.col.printed, b.marks, a.col.printed, Sidebar);
        LedgerCompose(main.printed, a.marks, main.printed, b.marks, b.col.printed, Main);
        if !b.blocked && (a.drew || b.drew) {
          LoopHeaders(sSecs, mSecs, data, sLines, mLines, st, bottom, a.col, b.col);
          var r := Loop(sSecs, mSecs, data, sLines, mLines, st, bottom, a.col, b.col);
          LedgerCompose(side.printed, a.marks + b.marks, a.col.printed, r.marks, r.side.printed, Sidebar);
          LedgerCompose(main.printed, a.marks + b.marks, b.col.printed, r.marks, r.main.printed, Main);
        }
      }
    }
  }

  /** The loop keeps both line indices within their sections. */
  lemma {:induction false} LoopInRange(sSecs: seq<Section>, mSecs: seq<Section>, data: Data,
                                       sLines: seq<seq<string>>, mLines: seq<seq<string>>,
                                       st: Style, bottom: real, side: Col, main: Col)
    requires |sLines| == |sSecs| && |mLines| == |mSecs|
    requires LineInRange(sLines, side) && LineInRange(mLines, main)
    ensures var r := Loop(sSecs, mSecs, data, sLines, mLines, st, bottom, side, main);
      LineInRange(sLines, r.side) && LineInRange(mLines, r.main)
    decreases Left(sLines, side) + Left(mLines, main)
  {
    if !(side.idx >= |sSecs| && main.idx >= |mSecs|) {
      var a := ColumnStep(Sidebar, sSecs, data, sLines, st, bottom, side);
      StepForward(Sidebar, sSecs, data, sLines, st, bottom, side);
      StepInRange(Sidebar, sSecs, data, sLines, st, bottom, side);
      if !a.blocked {
        var b := ColumnStep(Main, mSecs, data, mLines, st, bottom, main);
        StepForward(Main, mSecs, data, mLines, st, bottom, main);
        StepInRange(Main, mSecs, data, mLines, st, bottom, main);
        if !b.blocked && (a.drew || b.drew) {
          LoopInRange(sSecs, mSecs, data, sLines, mLines, st, bottom, a.col, b.col);
        }
      }
    }
  }

  /** Why the loop ended: both lists exhausted, or the named column's next
      item does not fit. */
  lemma {:induction false} LoopStops(sSecs: seq<Section>, mSecs: seq<Section>, data: Data,
                                     sLines: seq<seq<string>>, mLines: seq<seq<string>>,
                                     st: Style, bottom: real, side: Col, main: Col)
    requires |sLines| == |sSecs| && |mLines| == |mSecs|
    ensures var r := Loop(sSecs, mSecs, data, sLines, mLines, st, bottom, side, main);
      (r.stop == AllPlaced ==> r.side.idx >= |sSecs| && r.main.idx >= |mSecs|)
      && (r.stop == NoRoom(Sidebar) ==> NoRoomAt(sSecs, data, sLines, st, bottom, r.side))
      && (r.stop == NoRoom(Main) ==> NoRoomAt(mSecs, data, mLines, st, bottom, r.main))
    decreases Left(sLines, side) + Left(mLines, main)
  {
    if !(side.idx >= |sSecs| && main.idx >= |mSecs|) {
      var a := ColumnStep(Sidebar, sSecs, data, sLines, st, bottom, side);
      StepForward(Sidebar, sSecs, data, sLines, st, bottom, side);
      StepBlocked(Sidebar, sSecs, data, sLines, st, bottom, side);
      if !a.blocked {
        var b := ColumnStep(Main, mSecs, data, mLines, st, bottom, main);
        StepForward(Main, mSecs, data, mLines, st, bottom, main);
        StepBlocked(Main, mSecs, data, mLines, st, bottom, main);
        if !b.blocked && (a.drew || b.drew) {
          LoopStops(sSecs, mSecs, data, sLines, mLines, st, bottom, a.col, b.col);
        }
      }
    }
  }

  /** A sidebar section that is not truthy is never passed by the loop. */
  lemma {:induction false} LoopStuckSidebar(sSecs: seq<Section>, mSecs: seq<Section>, data: Data,
                                            sLines: seq<seq<string>>, mLines: seq<seq<string>>,
                                            st: Style, bottom: real, side: Col, main: Col, k: nat)
    requires |sLines| == |sSecs| && |mLines| == |mSecs|
    requires k < |sSecs| && !Truthy(data, sSecs[k].content) && side.idx <= k
    ensures Loop(sSecs, mSecs, data, sLines, mLines, st, bottom, side, main).side.idx <= k
    decreases Left(sLines, side) + Left(mLines, main)
  {
    var a := ColumnStep(Sidebar, sSecs, data, sLines, st, bottom, side);
    StepForward(Sidebar, sSecs, data, sLines, st, bottom, side);
    StepStuck(Sidebar, sSecs, data, sLines, st, bottom, side, k);
    if !a.blocked {
      var b := ColumnStep(Main, mSecs, data, mLines, st, bottom, main);
      StepForward(Main, mSecs, data, mLines, st, bottom, main);
      if !b.blocked && (a.drew || b.drew) {
        LoopStuckSidebar(sSecs, mSecs, data, sLines, mLines, st, bottom, a.col, b.col, k);
      }
    }
  }

  /** A main-column section that is not truthy is never passed by the loop. */
  lemma {:induction false} LoopStuckMain(sSecs: seq<Section>, mSecs: seq<Section>, data: Data,
                                         sLines: seq<seq<string>>, mLines: seq<seq<string>>,
                                         st: Style, bottom: real, side: Col, main: Col, k: nat)
    requires |sLines| == |sSecs| && |mLines| == |mSecs|
    requires k < |mSecs| && !Truthy(data, mSecs[k].content) && main.idx <= k
    ensures Loop(sSecs, mSecs, data, sLines, mLines, st, bottom, side, main).main.idx <= k
    decreases Left(sLines, side) + Left(mLines, main)
  {
    var a := ColumnStep(Sidebar, sSecs, data, sLines, st, bottom, side);
    StepForward(Sidebar, sSecs, data, sLines, st, bottom, side);
    if !a.blocked {
      var b := ColumnStep(Main, mSecs, data, mLines, st, bottom, main);
      StepForward(Main, mSecs, data, mLines, st, bottom, main);
      StepStuck(Main, mSecs, data, mLines, st, bottom, main, k);
      if !b.blocked && (a.drew || b.drew) {
        LoopStuckMain(sSecs, mSecs, data, sLines, mLines, st, bottom, a.col, b.col, k);
      }
    }
  }

  /** With every section truthy and room for a header and a line at both
      starting heights, the loop places something: what is left shrinks. */
  lemma LoopProgress(sSecs: seq<Section>, mSecs: seq<Section>, data: Data,
                     sLines: seq<seq<string>>, mLines: seq<seq<string>>,
                     st: Style, bottom: real, side: Col, main: Col)
    requires |sLines| == |sSecs| && |mLines| == |mSecs|
    requires LineInRange(sLines, side) && LineInRange(mLines, main)
    requires forall i :: 0 <= i < |sSecs| ==> Truthy(data, sSecs[i].content)
    requires forall i :: 0 <= i < |mSecs| ==> Truthy(data, mSecs[i].content)
    requires FreshFits(st, bottom, side.y) && FreshFits(st, bottom, main.y)
    requires side.idx < |sSecs| || main.idx < |mSecs|
    ensures var r := Loop(sSecs, mSecs, data, sLines, mLines, st, bottom, side, main);
      Left(sLines, r.side) + Left(mLines, r.main) < Left(sLines, side) + Left(mLines, main)
  {
    var a := ColumnStep(Sidebar, sSecs, data, sLines, st, bottom, side);
    StepForward(Sidebar, sSecs, data, sLines, st, bottom, side);
    if side.idx < |sSecs| {
      StepMoves(Sidebar, sSecs, data, sLines, st, bottom, side);
    }
    var b := ColumnStep(Main, mSecs, data, mLines, st, bottom, main);
    StepForward(Main, mSecs, data, mLines, st, bottom, main);
    if side.idx >= |sSecs| {
      StepMoves(Main, mSecs, data, mLines, st, bottom, main);
    }
  }

  // ---------------------------------------------------------------------------
  // draw_content

  /** `draw_content` is the opening followed by the loop. */
  lemma DrawContentParts(l: Layout, sl: seq<seq<string>>, ml: seq<seq<string>>, y: real, side: Col, main: Col)
    requires LinesFor(l, sl, ml)
    ensures var b := Opening(l, y, side, main);
      var r := Loop(l.sSecs, l.mSecs, l.data, sl, ml, l.st, l.g.bottom, side.(y := y), main.(y := b.1));
      var o := DrawContent(l, sl, ml, y, side, main);
      o.side == r.side && o.main == r.main && o.stop == r.stop && o.marks == b.0 + r.marks
  {
  }

  /** The banner (the name, then the job role) is drawn exactly when both
      start indices are 0, at the top of the call, and the job role only when
      it is truthy; everything else drawn is a header or a body line. */
  lemma DrawContentBanner(l: Layout, sl: seq<seq<string>>, ml: seq<seq<string>>, y: real, side: Col, main: Col)
    requires LinesFor(l, sl, ml)
    ensures var o := DrawContent(l, sl, ml, y, side, main);
      var banner := side.idx == 0 && main.idx == 0;
      (banner <==> o.marks != [] && o.marks[0].Text? && o.marks[0].role == Title)
      && (banner ==> o.marks[0] == Text(Main, y, Upper(FullName(l.data)), Title))
      && (banner && Truthy(l.data, "job_role") ==>
            o.marks[1] == Text(Main, y - (l.st.titleSize + 2.0), l.data["job_role"], JobRole))
      && (HasJobRole(o.marks) <==> banner && Truthy(l.data, "job_role"))
  {
    var b := Opening(l, y, side, main);
    var s0, m0 := side.(y := y), main.(y := b.1);
    DrawContentParts(l, sl, ml, y, side, main);
    LoopTrace(l.sSecs, l.mSecs, l.data, sl, ml, l.st, l.g.bottom, s0, m0);
    var r := Loop(l.sSecs, l.mSecs, l.data, sl, ml, l.st, l.g.bottom, s0, m0);
    BannerShape(l.data, l.st, y);
    BannerThenLayout(b.0, r.marks);
  }

  /** A job-role line is among the marks. */
  predicate HasJobRole(marks: seq<Mark>) {
    exists i :: 0 <= i < |marks| && marks[i].Text? && marks[i].role == JobRole
  }

  /** The banner is the name, then the job role when it is truthy. */
  lemma BannerShape(data: Data, st: Style, y: real)
    ensures var b := Banner(data, st, y).0;
      b != [] && b[0] == Text(Main, y, Upper(FullName(data)), Title)
      && (Truthy(data, "job_role") ==> |b| == 2 && b[1] == Text(Main, y - (st.titleSize + 2.0), data["job_role"], JobRole))
      && (HasJobRole(b) <==> Truthy(data, "job_role"))
  {
    var b := Banner(data, st, y).0;
    if Truthy(data, "job_role") {
      assert b[1].role == JobRole;
    }
  }

  /** Marks of a banner (or nothing) followed by layout marks: the title comes
      first exactly when there is a banner, and the job role occurs only in it. */
  lemma BannerThenLayout(a: seq<Mark>, m: seq<Mark>)
    requires AllLayout(m)
    requires a == [] || (a[0].Text? && a[0].role == Title)
    ensures (a != [] <==> a + m != [] && (a + m)[0].Text? && (a + m)[0].role == Title)
    ensures a != [] ==> (a + m)[0] == a[0]
    ensures |a| >= 2 ==> (a + m)[1] == a[1]
    ensures HasJobRole(a + m) <==> HasJobRole(a)
  {
    if a == [] && m != [] {
      assert (a + m)[0] == m[0];
    }
    if HasJobRole(a + m) {
      var i :| 0 <= i < |a + m| && (a + m)[i].Text? && (a + m)[i].role == JobRole;
      if i >= |a| {
        assert false;
      }
      assert a[i] == (a + m)[i];
    }
    if HasJobRole(a) {
      var i :| 0 <= i < |a| && a[i].Text? && a[i].role == JobRole;
      assert (a + m)[i] == a[i];
    }
  }

  /** `draw_content` keeps the header ledger of both columns. */
  lemma DrawContentHeaders(l: Layout, sl: seq<seq<string>>, ml: seq<seq<string>>, y: real, side: Col, main: Col)
    requires LinesFor(l, sl, ml)
    ensures var o := DrawContent(l, sl, ml, y, side, main);
      Ledger(side.printed, o.marks, Sidebar, o.side.printed) && Ledger(main.printed, o.marks, Main, o.main.printed)
  {
    var b := Opening(l, y, side, main);
    var s0, m0 := side.(y := y), main.(y := b.1);
    DrawContentParts(l, sl, ml, y, side, main);
    LoopHeaders(l.sSecs, l.mSecs, l.data, sl, ml, l.st, l.g.bottom, s0, m0);
    var r := Loop(l.sSecs, l.mSecs, l.data, sl, ml, l.st, l.g.bottom, s0, m0);
    BannerTitles(l.data, l.st, y, Sidebar);
    BannerTitles(l.data, l.st, y, Main);
    LedgerNone(side.printed, b.0, Sidebar);
    LedgerNone(main.printed, b.0, Main);
    LedgerCompose(side.printed, b.0, side.printed, r.marks, r.side.printed, Sidebar);
    LedgerCompose(main.printed, b.0, main.printed, r.marks, r.main.printed, Main);
  }

  lemma BannerTitles(data: Data, st: Style, y: real, c: Column)
    ensures Titles(Banner(data, st, y).0, c) == [] && Titles([], c) == []
  {
    TitlesShort(Banner(data, st, y).0, c);
  }

  /** Everything `draw_content` draws is text, and every header and body
      line passed its space check. */
  lemma DrawContentTrace(l: Layout, sl: seq<seq<string>>, ml: seq<seq<string>>, y: real, side: Col, main: Col)
    requires LinesFor(l, sl, ml)
    ensures var o := DrawContent(l, sl, ml, y, side, main);
      (forall i :: 0 <= i < |o.marks| ==> o.marks[i].Text?) && AllFit(l.st, l.g.bottom, o.marks)
  {
    var b := Opening(l, y, side, main);
    var s0, m0 := side.(y := y), main.(y := b.1);
    DrawContentParts(l, sl, ml, y, side, main);
    var r := Loop(l.sSecs, l.mSecs, l.data, sl, ml, l.st, l.g.bottom, s0, m0);
    LoopTrace(l.sSecs, l.mSecs, l.data, sl, ml, l.st, l.g.bottom, s0, m0);
    OpeningTexts(l, y, side, main);
    AllFitAppend(l.st, l.g.bottom, b.0, r.marks);
    TextsAppend(b.0, r.marks);
  }

  /** The opening is text that needs no space check. */
  lemma OpeningTexts(l: Layout, y: real, side: Col, main: Col)
    ensures var b := Opening(l, y, side, main).0;
      (forall i :: 0 <= i < |b| ==> b[i].Text? && b[i].role in {Title, JobRole}) && AllFit(l.st, l.g.bottom, b)
  {
  }

  /** `draw_content` keeps both line indices within their sections. */
  lemma DrawContentInRange(l: Layout, sl: seq<seq<string>>, ml: seq<seq<string>>, y: real, side: Col, main: Col)
    requires LinesFor(l, sl, ml)
    requires LineInRange(sl, side) && LineInRange(ml, main)
    ensures var o := DrawContent(l, sl, ml, y, side, main);
      LineInRange(sl, o.side) && LineInRange(ml, o.main)
  {
    var b := Opening(l, y, side, main);
    var s0, m0 := side.(y := y), main.(y := b.1);
    DrawContentParts(l, sl, ml, y, side, main);
    LoopInRange(l.sSecs, l.mSecs, l.data, sl, ml, l.st, l.g.bottom, s0, m0);
  }

  /** A call never moves either cursor backwards. */
  lemma DrawContentForward(l: Layout, sl: seq<seq<string>>, ml: seq<seq<string>>, y: real, side: Col, main: Col)
    requires LinesFor(l, sl, ml)
    ensures var o := DrawContent(l, sl, ml, y, side, main);
      NotBehind(side, o.side) && NotBehind(main, o.main)
  {
    var b := Opening(l, y, side, main);
    var s0, m0 := side.(y := y), main.(y := b.1);
    DrawContentParts(l, sl, ml, y, side, main);
    var r := Loop(l.sSecs, l.mSecs, l.data, sl, ml, l.st, l.g.bottom, s0, m0);
    assert NotBehind(s0, r.side) && NotBehind(m0, r.main);
  }

  lemma TextsAppend(a: seq<Mark>, b: seq<Mark>)
    requires forall i :: 0 <= i < |a| ==> a[i].Text?
    requires AllLayout(b)
    ensures forall i :: 0 <= i < |a + b| ==> (a + b)[i].Text?
  {
    forall i | 0 <= i < |a + b| ensures (a + b)[i].Text? {
      if i >= |a| { assert (a + b)[i] == b[i - |a|]; }
    }
  }

  /** A call that stops for lack of room leaves something unplaced; a call
      that stops with everything placed has placed both lists. */
  lemma DrawContentStops(l: Layout, sl: seq<seq<string>>, ml: seq<seq<string>>, y: real, side: Col, main: Col)
    requires LinesFor(l, sl, ml)
    ensures var o := DrawContent(l, sl, ml, y, side, main);
      (o.stop == AllPlaced ==> Placed(l, o.side, o.main))
      && (o.stop == NoRoom(Sidebar) ==> NoRoomAt(l.sSecs, l.data, sl, l.st, l.g.bottom, o.side))
      && (o.stop == NoRoom(Main) ==> NoRoomAt(l.mSecs, l.data, ml, l.st, l.g.bottom, o.main))
      && (o.stop.NoRoom? ==> !Placed(l, o.side, o.main))
  {
    var b := Opening(l, y, side, main);
    var s0, m0 := side.(y := y), main.(y := b.1);
    DrawContentParts(l, sl, ml, y, side, main);
    LoopStops(l.sSecs, l.mSecs, l.data, sl, ml, l.st, l.g.bottom, s0, m0);
    var o := DrawContent(l, sl, ml, y, side, main);
    if o.stop.NoRoom? {
      if o.stop.col == Sidebar {
        assert o.side.idx < |l.sSecs|;
      } else {
        assert o.main.idx < |l.mSecs|;
      }
    }
  }

  // ---------------------------------------------------------------------------
  // The driver

  /** Every page break is followed by the sidebar background. */
  predicate Repainted(marks: seq<Mark>) {
    forall i :: 0 <= i < |marks| && marks[i] == NewPage ==> i + 1 < |marks| && marks[i + 1] == SidebarPanel
  }

  /** Column `c` of the document drew each header text at most once, and `p`
      is the set of header texts it drew. */
  predicate HeaderLog(marks: seq<Mark>, c: Column, p: set<string>) {
    NoDup(Titles(marks, c)) && p == ToSet(Titles(marks, c))
  }

  /** The header ledger of the document between two calls of `draw_content`. */
  predicate DocHeaders(side: Col, main: Col, marks: seq<Mark>) {
    HeaderLog(marks, Sidebar, side.printed) && HeaderLog(marks, Main, main.printed)
  }

  /** A ledger from nothing is a header log. */
  lemma LedgerLog(marks: seq<Mark>, c: Column, p: set<string>)
    ensures Ledger({}, marks, c, p) <==> HeaderLog(marks, c, p)
  {
  }

  /** The rest of what holds of the document between two calls. */
  predicate DocMarks(l: Layout, sl: seq<seq<string>>, ml: seq<seq<string>>, side: Col, main: Col, marks: seq<Mark>) {
    AllFit(l.st, l.g.bottom, marks)
    && LineInRange(sl, side) && LineInRange(ml, main)
    && marks != [] && marks[0] == SidebarPanel
    && Repainted(marks)
  }

  lemma RepaintedTexts(marks: seq<Mark>, t: seq<Mark>)
    requires Repainted(marks)
    requires forall i :: 0 <= i < |t| ==> t[i].Text?
    ensures Repainted(marks + t)
  {
    forall i | 0 <= i < |marks + t| && (marks + t)[i] == NewPage
      ensures i + 1 < |marks + t| && (marks + t)[i + 1] == SidebarPanel
    {
      if i < |marks| {
        assert marks[i] == NewPage;
      }
    }
  }

  lemma RepaintedBreak(marks: seq<Mark>)
    requires Repainted(marks)
    ensures Repainted(marks + [NewPage, SidebarPanel])
  {
    var m := marks + [NewPage, SidebarPanel];
    forall i | 0 <= i < |m| && m[i] == NewPage ensures i + 1 < |m| && m[i + 1] == SidebarPanel {
      if i < |marks| {
        assert marks[i] == NewPage;
      }
    }
  }

  lemma BreakMarks(p: set<string>, c: Column, st: Style, bottom: real)
    ensures Ledger(p, [NewPage, SidebarPanel], c, p) && Ledger({}, [SidebarPanel], c, {})
    ensures AllFit(st, bottom, [NewPage, SidebarPanel]) && PageBreaks([NewPage, SidebarPanel]) == 1
    ensures PageBreaks([SidebarPanel]) == 0
  {
    TitlesShort([NewPage, SidebarPanel], c);
    TitlesShort([SidebarPanel], c);
    LedgerNone(p, [NewPage, SidebarPanel], c);
    LedgerNone({}, [SidebarPanel], c);
    assert [NewPage, SidebarPanel][..1] == [NewPage];
    assert [NewPage][..0] == [];
    assert [SidebarPanel][..0] == [];
  }

  /** One call of `draw_content` keeps the document's header ledger. */
  lemma PageHeaders(l: Layout, sl: seq<seq<string>>, ml: seq<seq<string>>, y: real, side: Col, main: Col, marks: seq<Mark>)
    requires LinesFor(l, sl, ml)
    requires DocHeaders(side, main, marks)
    ensures var o := DrawContent(l, sl, ml, y, side, main);
      DocHeaders(o.side, o.main, marks + o.marks)
  {
    var o := DrawContent(l, sl, ml, y, side, main);
    DrawContentHeaders(l, sl, ml, y, side, main);
    LedgerLog(marks, Sidebar, side.printed);
    LedgerLog(marks, Main, main.printed);
    LedgerCompose({}, marks, side.printed, o.marks, o.side.printed, Sidebar);
    LedgerCompose({}, marks, main.printed, o.marks, o.main.printed, Main);
    LedgerLog(marks + o.marks, Sidebar, o.side.printed);
    LedgerLog(marks + o.marks, Main, o.main.printed);
  }

  /** One call of `draw_content` keeps the rest of the document invariant. */
  lemma PageMarks(l: Layout, sl: seq<seq<string>>, ml: seq<seq<string>>, y: real, side: Col, main: Col, marks: seq<Mark>)
    requires LinesFor(l, sl, ml)
    requires DocMarks(l, sl, ml, side, main, marks)
    ensures var o := DrawContent(l, sl, ml, y, side, main);
      DocMarks(l, sl, ml, o.side, o.main, marks + o.marks)
  {
    var o := DrawContent(l, sl, ml, y, side, main);
    DrawContentTrace(l, sl, ml, y, side, main);
    DrawContentInRange(l, sl, ml, y, side, main);
    AllFitAppend(l.st, l.g.bottom, marks, o.marks);
    RepaintedTexts(marks, o.marks);
  }

  /** `start_new_page` draws no header. */
  lemma BreakTitles(marks: seq<Mark>, c: Column)
    ensures Titles(marks + [NewPage, SidebarPanel], c) == Titles(marks, c)
  {
    TitlesShort([NewPage, SidebarPanel], c);
    TitlesAppend(marks, [NewPage, SidebarPanel], c);
  }

  /** `start_new_page` keeps the rest of the document invariant: a page
      break is followed by the sidebar background. */
  lemma NewPageMarks(l: Layout, sl: seq<seq<string>>, ml: seq<seq<string>>, side: Col, main: Col, marks: seq<Mark>)
    requires DocMarks(l, sl, ml, side, main, marks)
    ensures DocMarks(l, sl, ml, side, main, marks + [NewPage, SidebarPanel])
  {
    BreakMarks(side.printed, Sidebar, l.st, l.g.bottom);
    AllFitAppend(l.st, l.g.bottom, marks, [NewPage, SidebarPanel]);
    RepaintedBreak(marks);
  }

  /** With both lists placed or no calls left, the driver stops where it is. */
  lemma PagesStop(l: Layout, sl: seq<seq<string>>, ml: seq<seq<string>>, n: nat, y: real, side: Col, main: Col, marks: seq<Mark>)
    requires LinesFor(l, sl, ml) && (n == 0 || Placed(l, side, main))
    ensures Pages(l, sl, ml, n, y, side, main, marks) == Doc(side, main, marks, Placed(l, side, main))
  {
  }

  /** With something left and pages to go, the driver makes a call. */
  lemma PagesCall(l: Layout, sl: seq<seq<string>>, ml: seq<seq<string>>, n: nat, y: real, side: Col, main: Col, marks: seq<Mark>)
    requires LinesFor(l, sl, ml) && n > 0 && !Placed(l, side, main)
    ensures Pages(l, sl, ml, n, y, side, main, marks) == AfterCall(l, sl, ml, n, DrawContent(l, sl, ml, y, side, main), marks)
  {
  }

  /** The driver finishes after a call that placed everything or whose
      next page finishes. */
  lemma AfterCallDone(l: Layout, sl: seq<seq<string>>, ml: seq<seq<string>>, n: nat, left: nat, o: Outcome,
                      marks: seq<Mark>, next: seq<Mark>)
    requires LinesFor(l, sl, ml) && n > 0 && left == n - 1 && next == marks + o.marks + [NewPage, SidebarPanel]
    requires Placed(l, o.side, o.main) || Pages(l, sl, ml, left, Top(l.g), o.side, o.main, next).done
    ensures AfterCall(l, sl, ml, n, o, marks).done
  {
  }

  /** After a call with outcome `o`, the driver goes on from `o`'s cursors:
      at the top of a new page when something is left. */
  lemma AfterCallNext(l: Layout, sl: seq<seq<string>>, ml: seq<seq<string>>, n: nat, left: nat, o: Outcome, marks: seq<Mark>, y: real)
    requires LinesFor(l, sl, ml) && n > 0 && left == n - 1
    ensures Placed(l, o.side, o.main) ==>
      AfterCall(l, sl, ml, n, o, marks) == Pages(l, sl, ml, left, y, o.side, o.main, marks + o.marks)
    ensures !Placed(l, o.side, o.main) ==>
      AfterCall(l, sl, ml, n, o, marks) == Pages(l, sl, ml, left, Top(l.g), o.side, o.main, (marks + o.marks) + [NewPage, SidebarPanel])
  {
    SeqAssoc(marks, o.marks, [NewPage, SidebarPanel]);
  }

  lemma {:induction false} PagesHeaders(l: Layout, sl: seq<seq<string>>, ml: seq<seq<string>>, n: nat, y: real,
                                        side: Col, main: Col, marks: seq<Mark>)
    requires LinesFor(l, sl, ml)
    requires DocHeaders(side, main, marks)
    ensures var doc := Pages(l, sl, ml, n, y, side, main, marks);
      DocHeaders(doc.side, doc.main, doc.marks)
    decreases n, 1
  {
    if !Placed(l, side, main) && n > 0 {
      PageHeaders(l, sl, ml, y, side, main, marks);
      AfterCallHeaders(l, sl, ml, n, DrawContent(l, sl, ml, y, side, main), marks);
    }
  }

  lemma {:induction false} AfterCallHeaders(l: Layout, sl: seq<seq<string>>, ml: seq<seq<string>>, n: nat,
                                            o: Outcome, marks: seq<Mark>)
    requires LinesFor(l, sl, ml) && n > 0
    requires DocHeaders(o.side, o.main, marks + o.marks)
    ensures var doc := AfterCall(l, sl, ml, n, o, marks);
      DocHeaders(doc.side, doc.main, doc.marks)
    decreases n, 0
  {
    var doc := AfterCall(l, sl, ml, n, o, marks);
    if Placed(l, o.side, o.main) {
      assert doc == Doc(o.side, o.main, marks + o.marks, true);
    } else {
      NextPageHeaders(l, sl, ml, n - 1, o.side, o.main, marks + o.marks, doc);
    }
  }

  lemma {:induction false} NextPageHeaders(l: Layout, sl: seq<seq<string>>, ml: seq<seq<string>>, n: nat,
                                           side: Col, main: Col, marks: seq<Mark>, doc: Doc)
    requires LinesFor(l, sl, ml)
    requires DocHeaders(side, main, marks)
    requires doc == Pages(l, sl, ml, n, Top(l.g), side, main, marks + [NewPage, SidebarPanel])
    ensures DocHeaders(doc.side, doc.main, doc.marks)
    decreases n, 2
  {
    BreakTitles(marks, Sidebar);
    BreakTitles(marks, Main);
    PagesHeaders(l, sl, ml, n, Top(l.g), side, main, marks + [NewPage, SidebarPanel]);
  }

  lemma {:induction false} PagesMarks(l: Layout, sl: seq<seq<string>>, ml: seq<seq<string>>, n: nat, y: real,
                                      side: Col, main: Col, marks: seq<Mark>)
    requires LinesFor(l, sl, ml)
    requires DocMarks(l, sl, ml, side, main, marks)
    ensures var doc := Pages(l, sl, ml, n, y, side, main, marks);
      DocMarks(l, sl, ml, doc.side, doc.main, doc.marks) && (doc.done ==> Placed(l, doc.side, doc.main))
    decreases n, 1
  {
    if !Placed(l, side, main) && n > 0 {
      PageMarks(l, sl, ml, y, side, main, marks);
      AfterCallMarks(l, sl, ml, n, DrawContent(l, sl, ml, y, side, main), marks);
    }
  }

  lemma {:induction false} AfterCallMarks(l: Layout, sl: seq<seq<string>>, ml: seq<seq<string>>, n: nat,
                                          o: Outcome, marks: seq<Mark>)
    requires LinesFor(l, sl, ml) && n > 0
    requires DocMarks(l, sl, ml, o.side, o.main, marks + o.marks)
    ensures var doc := AfterCall(l, sl, ml, n, o, marks);
      DocMarks(l, sl, ml, doc.side, doc.main, doc.marks) && (doc.done ==> Placed(l, doc.side, doc.main))
    decreases n, 0
  {
    AfterCallNext(l, sl, ml, n, n - 1, o, marks, Top(l.g));
    if !Placed(l, o.side, o.main) {
      NewPageMarks(l, sl, ml, o.side, o.main, marks + o.marks);
      PagesMarks(l, sl, ml, n - 1, Top(l.g), o.side, o.main, marks + o.marks + [NewPage, SidebarPanel]);
    }
  }

  /** Across the calls of the driver neither cursor moves backwards: a new
      page resumes each column where the last call left it. */
  lemma {:induction false} PagesForward(l: Layout, sl: seq<seq<string>>, ml: seq<seq<string>>, n: nat, y: real,
                                        side: Col, main: Col, marks: seq<Mark>)
    requires LinesFor(l, sl, ml)
    ensures var doc := Pages(l, sl, ml, n, y, side, main, marks);
      NotBehind(side, doc.side) && NotBehind(main, doc.main)
    decreases n
  {
    if !Placed(l, side, main) && n > 0 {
      var o := DrawContent(l, sl, ml, y, side, main);
      DrawContentForward(l, sl, ml, y, side, main);
      PagesCall(l, sl, ml, n, y, side, main, marks);
      var left: nat := n - 1;
      AfterCallNext(l, sl, ml, n, left, o, marks, Top(l.g));
      if !Placed(l, o.side, o.main) {
        var next := marks + o.marks + [NewPage, SidebarPanel];
        PagesForward(l, sl, ml, left, Top(l.g), o.side, o.main, next);
      }
    }
  }

  /** The whole document: the sidebar background comes first and again after
      every page break; each column draws each header text at most once, and
      its printed set is exactly the headers it drew; every header and body
      line passed its space check; a finished document placed every section
      of both lists. */
  lemma RenderOk(l: Layout, n: nat)
    ensures var doc := Render(l, n);
      doc.marks != [] && doc.marks[0] == SidebarPanel && Repainted(doc.marks)
      && NoDup(Titles(doc.marks, Sidebar)) && doc.side.printed == ToSet(Titles(doc.marks, Sidebar))
      && NoDup(Titles(doc.marks, Main)) && doc.main.printed == ToSet(Titles(doc.marks, Main))
      && AllFit(l.st, l.g.bottom, doc.marks)
      && (doc.done ==> doc.side.idx == |l.sSecs| && doc.main.idx == |l.mSecs|)
  {
    BreakMarks({}, Sidebar, l.st, l.g.bottom);
    BreakMarks({}, Main, l.st, l.g.bottom);
    LedgerLog([SidebarPanel], Sidebar, {});
    LedgerLog([SidebarPanel], Main, {});
    assert AllFit(l.st, l.g.bottom, [SidebarPanel]);
    PagesHeaders(l, SideLines(l), MainLines(l), n, Top(l.g), Start(), Start(), [SidebarPanel]);
    PagesMarks(l, SideLines(l), MainLines(l), n, Top(l.g), Start(), Start(), [SidebarPanel]);
  }

  /** Every section has content. */
  predicate AllTruthy(l: Layout) {
    (forall i :: 0 <= i < |l.sSecs| ==> Truthy(l.data, l.sSecs[i].content))
    && (forall i :: 0 <= i < |l.mSecs| ==> Truthy(l.data, l.mSecs[i].content))
  }

  /** A fresh page has room for a header and a line in both columns, below
      the banner too. */
  predicate Roomy(l: Layout) {
    FreshFits(l.st, l.g.bottom, Top(l.g)) && FreshFits(l.st, l.g.bottom, Banner(l.data, l.st, Top(l.g)).1)
  }

  /** What is left of the document. */
  function Work(sl: seq<seq<string>>, ml: seq<seq<string>>, side: Col, main: Col): nat {
    Left(sl, side) + Left(ml, main)
  }

  /** On a fresh page, with every section truthy, a call places something. */
  lemma DrawContentProgress(l: Layout, sl: seq<seq<string>>, ml: seq<seq<string>>, side: Col, main: Col)
    requires LinesFor(l, sl, ml)
    requires AllTruthy(l) && Roomy(l)
    requires LineInRange(sl, side) && LineInRange(ml, main)
    requires !Placed(l, side, main)
    ensures var o := DrawContent(l, sl, ml, Top(l.g), side, main);
      Work(sl, ml, o.side, o.main) < Work(sl, ml, side, main)
  {
    var y := Top(l.g);
    var b := Opening(l, y, side, main);
    var s0, m0 := side.(y := y), main.(y := b.1);
    DrawContentParts(l, sl, ml, y, side, main);
    OpeningRoom(l, side, main);
    LoopProgress(l.sSecs, l.mSecs, l.data, sl, ml, l.st, l.g.bottom, s0, m0);
    LeftIgnoresY(sl, side, y);
    LeftIgnoresY(ml, main, b.1);
  }

  lemma OpeningRoom(l: Layout, side: Col, main: Col)
    requires Roomy(l)
    ensures FreshFits(l.st, l.g.bottom, Opening(l, Top(l.g), side, main).1)
  {
  }

  lemma LeftIgnoresY(lines: seq<seq<string>>, s: Col, y: real)
    ensures Left(lines, s.(y := y)) == Left(lines, s)
  {
  }

  lemma {:induction false} PagesFinish(l: Layout, sl: seq<seq<string>>, ml: seq<seq<string>>, n: nat, side: Col, main: Col, marks: seq<Mark>)
    requires LinesFor(l, sl, ml)
    requires AllTruthy(l) && Roomy(l)
    requires LineInRange(sl, side) && LineInRange(ml, main)
    requires n > Work(sl, ml, side, main)
    ensures Pages(l, sl, ml, n, Top(l.g), side, main, marks).done
    decreases n, 1
  {
    if !Placed(l, side, main) {
      var o := DrawContent(l, sl, ml, Top(l.g), side, main);
      DrawContentProgress(l, sl, ml, side, main);
      DrawContentInRange(l, sl, ml, Top(l.g), side, main);
      var left: nat := n - 1;
      var next := marks + o.marks + [NewPage, SidebarPanel];
      if !Placed(l, o.side, o.main) {
        PagesFinish(l, sl, ml, left, o.side, o.main, next);
      }
      AfterCallDone(l, sl, ml, n, left, o, marks, next);
      PagesCall(l, sl, ml, n, Top(l.g), side, main, marks);
    }
  }

  /** With every section truthy and room on a fresh page, the driver places
      every section of both lists within one page per remaining item. */
  lemma RenderFinishes(l: Layout, n: nat)
    requires AllTruthy(l) && Roomy(l)
    requires n > Work(SideLines(l), MainLines(l), Start(), Start())
    ensures var doc := Render(l, n);
      doc.done && doc.side.idx == |l.sSecs| && doc.main.idx == |l.mSecs|
  {
    PagesFinish(l, SideLines(l), MainLines(l), n, Start(), Start(), [SidebarPanel]);
    RenderOk(l, n);
  }

  /** Some section not yet passed has no content. */
  predicate Stuck(l: Layout, side: Col, main: Col) {
    (exists k :: side.idx <= k < |l.sSecs| && !Truthy(l.data, l.sSecs[k].content))
    || (exists k :: main.idx <= k < |l.mSecs| && !Truthy(l.data, l.mSecs[k].content))
  }

  /** A section without content is never passed, so the call leaves the
      document unplaced. */
  lemma DrawContentStuck(l: Layout, sl: seq<seq<string>>, ml: seq<seq<string>>, y: real, side: Col, main: Col)
    requires LinesFor(l, sl, ml)
    requires Stuck(l, side, main)
    ensures var o := DrawContent(l, sl, ml, y, side, main);
      Stuck(l, o.side, o.main) && !Placed(l, o.side, o.main)
  {
    var b := Opening(l, y, side, main);
    var s0, m0 := side.(y := y), main.(y := b.1);
    DrawContentParts(l, sl, ml, y, side, main);
    var o := DrawContent(l, sl, ml, y, side, main);
    if exists k :: side.idx <= k < |l.sSecs| && !Truthy(l.data, l.sSecs[k].content) {
      var k :| side.idx <= k < |l.sSecs| && !Truthy(l.data, l.sSecs[k].content);
      LoopStuckSidebar(l.sSecs, l.mSecs, l.data, sl, ml, l.st, l.g.bottom, s0, m0, k);
      assert o.side.idx <= k;
    } else {
      var k :| main.idx <= k < |l.mSecs| && !Truthy(l.data, l.mSecs[k].content);
      LoopStuckMain(l.sSecs, l.mSecs, l.data, sl, ml, l.st, l.g.bottom, s0, m0, k);
      assert o.main.idx <= k;
    }
  }

  lemma {:induction false} PagesNeverDone(l: Layout, sl: seq<seq<string>>, ml: seq<seq<string>>, n: nat, y: real,
                                          side: Col, main: Col, marks: seq<Mark>)
    requires LinesFor(l, sl, ml)
    requires Stuck(l, side, main)
    ensures var doc := Pages(l, sl, ml, n, y, side, main, marks);
      !doc.done && PageBreaks(doc.marks) == PageBreaks(marks) + n
    decreases n, 1
  {
    assert !Placed(l, side, main);
    if n > 0 {
      var o := DrawContent(l, sl, ml, y, side, main);
      DrawContentStuck(l, sl, ml, y, side, main);
      DrawContentTrace(l, sl, ml, y, side, main);
      TextsHaveNoBreaks(o.marks);
      PageBreaksAppend(marks, o.marks);
      AfterCallNeverDone(l, sl, ml, n, o, marks);
    }
  }

  lemma {:induction false} AfterCallNeverDone(l: Layout, sl: seq<seq<string>>, ml: seq<seq<string>>, n: nat,
                                              o: Outcome, marks: seq<Mark>)
    requires LinesFor(l, sl, ml) && n > 0
    requires Stuck(l, o.side, o.main) && PageBreaks(o.marks) == 0
    ensures var doc := AfterCall(l, sl, ml, n, o, marks);
      !doc.done && PageBreaks(doc.marks) == PageBreaks(marks) + n
    decreases n, 0
  {
    assert !Placed(l, o.side, o.main);
    PageBreaksAppend(marks, o.marks);
    var next := marks + o.marks + [NewPage, SidebarPanel];
    BreakCounts(marks + o.marks);
    PagesNeverDone(l, sl, ml, n - 1, Top(l.g), o.side, o.main, next);
  }

  /** `start_new_page` adds one page break. */
  lemma BreakCounts(marks: seq<Mark>)
    ensures PageBreaks(marks + [NewPage, SidebarPanel]) == PageBreaks(marks) + 1
  {
    PageBreaksAppend(marks, [NewPage, SidebarPanel]);
    assert [NewPage, SidebarPanel][..1] == [NewPage];
    assert [NewPage][..0] == [];
  }

  /** When a section has no content, the driver never finishes: every call
      it is allowed ends in another page break. */
  lemma RenderNeverDone(l: Layout, n: nat)
    requires !AllTruthy(l)
    ensures !Render(l, n).done && PageBreaks(Render(l, n).marks) == n
  {
    BreakMarks({}, Sidebar, l.st, l.g.bottom);
    if exists k :: 0 <= k < |l.sSecs| && !Truthy(l.data, l.sSecs[k].content) {
      var k :| 0 <= k < |l.sSecs| && !Truthy(l.data, l.sSecs[k].content);
      assert Start().idx <= k;
    } else {
      var k :| 0 <= k < |l.mSecs| && !Truthy(l.data, l.mSecs[k].content);
      assert Start().idx <= k;
    }
    PagesNeverDone(l, SideLines(l), MainLines(l), n, Top(l.g), Start(), Start(), [SidebarPanel]);
  }

  /** With room on a fresh page, the driver finishes for some page budget
      exactly when every section has content. */
  lemma RenderDoneIff(l: Layout)
    requires Roomy(l)
    ensures (exists n: nat :: Render(l, n).done) <==> AllTruthy(l)
  {
    if AllTruthy(l) {
      var n := Work(SideLines(l), MainLines(l), Start(), Start()) + 1;
      RenderFinishes(l, n);
    } else {
      forall n: nat ensures !Render(l, n).done {
        RenderNeverDone(l, n);
      }
    }
  }
}
