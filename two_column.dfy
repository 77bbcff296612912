/** The drawing state of one two-column resume (templates 1 to 5): the
    header sets `printed_sidebar_headers` and `printed_main_headers` that the
    nested `draw_content` shares across calls, and the canvas it draws on,
    recorded as a trace of marks. Each method is proved against the functions
    of module Flow, whose properties module FlowFacts proves. */
module TwoColumnDraw {
  import opened PyStrings
  import opened Wrap
  import opened Flow
  import opened FlowFacts

  /** What is left after a loop state ending in `r`: the loop from the start
      ends in `r0`, and the canvas so far plus `r`'s marks is `c0` plus `r0`'s. */
  predicate Rest(r: Flowing, canvas: seq<Mark>, r0: Flowing, c0: seq<Mark>) {
    r.side == r0.side && r.main == r0.main && canvas + r.marks == c0 + r0.marks
  }

  /** `Rest` carries over a round that drew `m` and left the loop to end in `t`. */
  lemma RestNext(r: Flowing, t: Flowing, canvas: seq<Mark>, m: seq<Mark>, r0: Flowing, c0: seq<Mark>)
    requires Rest(r, canvas, r0, c0)
    requires r == Flowing(t.side, t.main, m + t.marks, t.stop)
    ensures Rest(t, canvas + m, r0, c0)
  {
    assert canvas + m + t.marks == canvas + (m + t.marks);
  }

  /** The loop ends in `r`, which draws `m`: what is drawn so far is all of `r0`. */
  lemma RestEnd(r: Flowing, canvas: seq<Mark>, m: seq<Mark>, r0: Flowing, c0: seq<Mark>)
    requires Rest(r, canvas, r0, c0) && r.marks == m
    ensures r.side == r0.side && r.main == r0.main && canvas + m == c0 + r0.marks
  {
  }

  /** One round of the loop, unfolded: `r` is the loop from `side` and
      `main`, `a` and `b` the two turns of its first round, and `t` the loop
      from where they leave the columns. */
  lemma LoopRound(sSecs: seq<Section>, mSecs: seq<Section>, data: Data,
                  sLines: seq<seq<string>>, mLines: seq<seq<string>>,
                  st: Style, bottom: real, side: Col, main: Col, a: Step, b: Step, r: Flowing, t: Flowing)
    requires |sLines| == |sSecs| && |mLines| == |mSecs|
    requires side.idx < |sSecs| || main.idx < |mSecs|
    requires a == ColumnStep(Sidebar, sSecs, data, sLines, st, bottom, side)
    requires b == ColumnStep(Main, mSecs, data, mLines, st, bottom, main)
    requires r == Loop(sSecs, mSecs, data, sLines, mLines, st, bottom, side, main)
    requires t == Loop(sSecs, mSecs, data, sLines, mLines, st, bottom, a.col, b.col)
    ensures a.blocked ==> r == Flowing(a.col, main, a.marks, NoRoom(Sidebar))
    ensures !a.blocked && b.blocked ==> r == Flowing(a.col, b.col, a.marks + b.marks, NoRoom(Main))
    ensures !a.blocked && !b.blocked && !(a.drew || b.drew) ==> r == Flowing(a.col, b.col, a.marks + b.marks, NothingDrawn)
    ensures !a.blocked && !b.blocked && (a.drew || b.drew) ==>
      Left(sLines, a.col) + Left(mLines, b.col) < Left(sLines, side) + Left(mLines, main)
      && r == Flowing(t.side, t.main, a.marks + b.marks + t.marks, t.stop)
  {
    StepForward(Sidebar, sSecs, data, sLines, st, bottom, side);
    StepForward(Main, mSecs, data, mLines, st, bottom, main);
  }

  /** `draw_content` restarts both columns at the `y` it is called with. */
  lemma DrawContentAnyY(l: Layout, sl: seq<seq<string>>, ml: seq<seq<string>>, y: real, side: Col, main: Col, y1: real, y2: real)
    requires LinesFor(l, sl, ml)
    ensures Flow.DrawContent(l, sl, ml, y, side, main) == Flow.DrawContent(l, sl, ml, y, side.(y := y1), main.(y := y2))
  {
  }

  class Document {
    const l: Layout
    var printedSidebar: set<string>
    var printedMain: set<string>
    var canvas: seq<Mark>

    /** The start of `templateN_draw_resume`: empty header sets and the
        sidebar background on the first page. */
    constructor (l: Layout)
      ensures this.l == l && printedSidebar == {} && printedMain == {} && canvas == [SidebarPanel]
    {
      this.l := l;
      printedSidebar := {};
      printedMain := {};
      canvas := [SidebarPanel];
    }

    /** The header set of column `c`. */
    function Printed(c: Column): set<string>
      reads this
    {
      if c == Sidebar then printedSidebar else printedMain
    }

    /** `start_new_page`: a page break, the sidebar background, and the top
        of the page. */
    method StartNewPage() returns (y: real)
      modifies this`canvas
      ensures canvas == old(canvas) + [NewPage, SidebarPanel]
      ensures y == Top(l.g)
    {
      canvas := canvas + [NewPage];
      canvas := canvas + [SidebarPanel];
      y := l.g.pageHeight - l.g.margin;
    }

    /** The wrapping loops at the start of `draw_content`: one list of lines
        per section, `[]` for a section whose content is not truthy. */
    method WrapSections(secs: seq<Section>, width: real) returns (lines: seq<seq<string>>)
      ensures lines == WrappedSections(l.measure, l.data, secs, width)
    {
      lines := [];
      var i := 0;
      while i < |secs|
        invariant 0 <= i <= |secs|
        invariant |lines| == i
        invariant forall j :: 0 <= j < i ==> lines[j] == SectionLines(l.measure, l.data, secs[j], width)
      {
        var key := secs[i].content;
        var wrapped := [];
        if key in l.data && l.data[key] != "" {
          wrapped := WrapTextDynamic(l.measure, l.data[key], width);
        }
        assert wrapped == SectionLines(l.measure, l.data, secs[i], width);
        lines := lines + [wrapped];
        i := i + 1;
      }
      ghost var all := WrappedSections(l.measure, l.data, secs, width);
      assert forall j :: 0 <= j < |secs| ==> lines[j] == all[j];
    }

    /** One column's turn in the loop of `draw_content`. */
    method TakeTurn(c: Column, secs: seq<Section>, lines: seq<seq<string>>, idx0: nat, line0: nat, y0: real,
                    ghost s: Col, ghost r: Step)
      returns (idx: nat, line: nat, y: real, drew: bool, blocked: bool)
      requires |lines| == |secs|
      requires s == Col(idx0, line0, y0, Printed(c))
      requires r == ColumnStep(c, secs, l.data, lines, l.st, l.g.bottom, s)
      modifies this
      ensures Col(idx, line, y, Printed(c)) == r.col && drew == r.drew && blocked == r.blocked
      ensures canvas == old(canvas) + r.marks
      ensures c == Sidebar ==> printedMain == old(printedMain)
      ensures c == Main ==> printedSidebar == old(printedSidebar)
    {
      idx, line, y, drew, blocked := idx0, line0, y0, false, false;
      if idx < |secs| {
        var key := secs[idx].content;
        if key in l.data && l.data[key] != "" {
          var htxt := secs[idx].header;
          if line == 0 && htxt !in Printed(c) {
            if y - (l.st.headerSize + l.st.sectionGap) <= l.g.bottom {
              blocked := true;
              return;
            }
            canvas := canvas + [Text(c, y, Upper(htxt), HeaderOf(htxt))];
            y := y - (l.st.headerSize + l.st.sectionGap);
            if c == Sidebar {
              printedSidebar := printedSidebar + {htxt};
            } else {
              printedMain := printedMain + {htxt};
            }
          }
          if line < |lines[idx]| {
            if y - (l.st.bodySize + l.st.paragraphGap) <= l.g.bottom {
              blocked := true;
              return;
            }
            canvas := canvas + [Text(c, y, lines[idx][line], Body)];
            y := y - (l.st.bodySize + l.st.paragraphGap);
            line := line + 1;
            drew := true;
          }
          if line >= |lines[idx]| {
            line := 0;
            idx := idx + 1;
            if idx < |secs| {
              y := y - l.st.sectionGap;
            }
          }
        }
      }
    }

    /** The `while` loop of `draw_content`. */
    method RunLoop(sLines: seq<seq<string>>, mLines: seq<seq<string>>,
                   sidx0: nat, sline0: nat, sy0: real, midx0: nat, mline0: nat, my0: real)
      returns (sidx: nat, sline: nat, sy: real, midx: nat, mline: nat, my: real)
      requires LinesFor(l, sLines, mLines)
      modifies this
      ensures var r := Loop(l.sSecs, l.mSecs, l.data, sLines, mLines, l.st, l.g.bottom,
                            Col(sidx0, sline0, sy0, old(printedSidebar)), Col(midx0, mline0, my0, old(printedMain)));
        Col(sidx, sline, sy, printedSidebar) == r.side && Col(midx, mline, my, printedMain) == r.main
        && canvas == old(canvas) + r.marks
    {
      ghost var sc, mc := Col(sidx0, sline0, sy0, printedSidebar), Col(midx0, mline0, my0, printedMain);
      ghost var r0 := Loop(l.sSecs, l.mSecs, l.data, sLines, mLines, l.st, l.g.bottom, sc, mc);
      ghost var r, c0 := r0, canvas;
      sidx, sline, sy, midx, mline, my := sidx0, sline0, sy0, midx0, mline0, my0;
      while sidx < |l.sSecs| || midx < |l.mSecs|
        invariant sc == Col(sidx, sline, sy, printedSidebar) && mc == Col(midx, mline, my, printedMain)
        invariant r == Loop(l.sSecs, l.mSecs, l.data, sLines, mLines, l.st, l.g.bottom, sc, mc)
        invariant Rest(r, canvas, r0, c0)
        decreases Left(sLines, sc) + Left(mLines, mc)
      {
        ghost var a := ColumnStep(Sidebar, l.sSecs, l.data, sLines, l.st, l.g.bottom, sc);
        ghost var b := ColumnStep(Main, l.mSecs, l.data, mLines, l.st, l.g.bottom, mc);
        ghost var t := Loop(l.sSecs, l.mSecs, l.data, sLines, mLines, l.st, l.g.bottom, a.col, b.col);
        LoopRound(l.sSecs, l.mSecs, l.data, sLines, mLines, l.st, l.g.bottom, sc, mc, a, b, r, t);
        ghost var before := canvas;
        var drew, drewMain, blocked;
        sidx, sline, sy, drew, blocked := TakeTurn(Sidebar, l.sSecs, sLines, sidx, sline, sy, sc, a);
        sc := a.col;
        if blocked {
          RestEnd(r, before, a.marks, r0, c0);
          break;
        }
        midx, mline, my, drewMain, blocked := TakeTurn(Main, l.mSecs, mLines, midx, mline, my, mc, b);
        mc := b.col;
        SeqAssoc(before, a.marks, b.marks);
        if blocked {
          RestEnd(r, before, a.marks + b.marks, r0, c0);
          break;
        }
        if !(drew || drewMain) {
          RestEnd(r, before, a.marks + b.marks, r0, c0);
          break;
        }
        RestNext(r, t, before, a.marks + b.marks, r0, c0);
        r := t;
      }
    }

    /** The banner at the top of `draw_content`, drawn when both start
        indices are 0: the name in capitals, then the job role when it is
        truthy; `mainY` is where the main column goes on. */
    method DrawBanner(y: real, sidx0: nat, midx0: nat) returns (mainY: real)
      modifies this`canvas
      ensures sidx0 == 0 && midx0 == 0 ==> canvas == old(canvas) + Banner(l.data, l.st, y).0 && mainY == Banner(l.data, l.st, y).1
      ensures !(sidx0 == 0 && midx0 == 0) ==> canvas == old(canvas) && mainY == y
    {
      mainY := y;
      if sidx0 == 0 && midx0 == 0 {
        canvas := canvas + [Text(Main, mainY, Upper(FullName(l.data)), Title)];
        mainY := mainY - (l.st.titleSize + 2.0);
        if "job_role" in l.data && l.data["job_role"] != "" {
          canvas := canvas + [Text(Main, mainY, l.data["job_role"], JobRole)];
          mainY := mainY - (l.st.jobRoleSize + l.st.sectionGap + 5.0);
        } else {
          mainY := mainY - l.st.sectionGap;
        }
      }
    }

    /** `draw_content(y, sidebar, main, sidx, midx, sline, mline)`: wrap every
        section, draw the banner, run the loop, and return the lower of the
        two column heights with both cursors. */
    method DrawContent(y: real, sidx0: nat, midx0: nat, sline0: nat, mline0: nat)
      returns (yNew: real, sidx: nat, sline: nat, midx: nat, mline: nat)
      modifies this
      ensures var o := Flow.DrawContent(l, SideLines(l), MainLines(l), y,
                                        Col(sidx0, sline0, y, old(printedSidebar)), Col(midx0, mline0, y, old(printedMain)));
        yNew == o.y && sidx == o.side.idx && sline == o.side.line && midx == o.main.idx && mline == o.main.line
        && printedSidebar == o.side.printed && printedMain == o.main.printed
        && canvas == old(canvas) + o.marks
    {
      ghost var side, main := Col(sidx0, sline0, y, printedSidebar), Col(midx0, mline0, y, printedMain);
      ghost var c0 := canvas;
      var sLines := WrapSections(l.sSecs, SidebarTextWidth(l.g));
      var mLines := WrapSections(l.mSecs, MainTextWidth(l.g));
      ghost var b := Opening(l, y, side, main);
      var mainY := DrawBanner(y, sidx0, midx0);
      ghost var c1 := canvas;
      assert c1 == c0 + b.0 && mainY == b.1;
      var sy, my;
      sidx, sline, sy, midx, mline, my := RunLoop(sLines, mLines, sidx0, sline0, y, midx0, mline0, mainY);
      yNew := if sy <= my then sy else my;
      ghost var r := Loop(l.sSecs, l.mSecs, l.data, sLines, mLines, l.st, l.g.bottom, side.(y := y), main.(y := b.1));
      assert canvas == c1 + r.marks;
      SeqAssoc(c0, b.0, r.marks);
    }

    /** One pass of the driver's loop: a call of `draw_content`, and
        `start_new_page` when something is left. */
    method Call(n: nat, y: real, sidx0: nat, midx0: nat, sline0: nat, mline0: nat, ghost gs: Col, ghost gm: Col, ghost doc: Doc)
      returns (left: nat, yNew: real, sidx: nat, midx: nat, sline: nat, mline: nat, ghost gs': Col, ghost gm': Col)
      requires n > 0 && !Placed(l, gs, gm)
      requires gs.idx == sidx0 && gs.line == sline0 && gs.printed == printedSidebar
      requires gm.idx == midx0 && gm.line == mline0 && gm.printed == printedMain
      requires doc == Pages(l, SideLines(l), MainLines(l), n, y, gs, gm, canvas)
      modifies this
      ensures gs'.idx == sidx && gs'.line == sline && gs'.printed == printedSidebar
      ensures gm'.idx == midx && gm'.line == mline && gm'.printed == printedMain
      ensures left == n - 1 && doc == Pages(l, SideLines(l), MainLines(l), left, yNew, gs', gm', canvas)
    {
      left := n - 1;
      ghost var sl, ml := SideLines(l), MainLines(l);
      ghost var o := Flow.DrawContent(l, sl, ml, y, gs, gm);
      ghost var before := canvas;
      DrawContentAnyY(l, sl, ml, y, gs, gm, y, y);
      assert gs.(y := y) == Col(sidx0, sline0, y, printedSidebar) && gm.(y := y) == Col(midx0, mline0, y, printedMain);
      PagesCall(l, sl, ml, n, y, gs, gm, canvas);
      yNew, sidx, sline, midx, mline := DrawContent(y, sidx0, midx0, sline0, mline0);
      gs', gm' := o.side, o.main;
      AfterCallNext(l, sl, ml, n, left, o, before, yNew);
      if sidx < |l.sSecs| || midx < |l.mSecs| {
        yNew := StartNewPage();
      }
    }

    /** `templateN_draw_resume`'s driver with a budget of `pages` calls of
        `draw_content`: call it from the top of the page, and start a new page
        after every call that leaves a section unplaced. `done` says whether
        both lists were placed within the budget. */
    method DrawAll(pages: nat) returns (done: bool)
      requires canvas == [SidebarPanel] && printedSidebar == {} && printedMain == {}
      modifies this
      ensures var doc := Render(l, pages);
        done == doc.done && canvas == doc.marks
        && printedSidebar == doc.side.printed && printedMain == doc.main.printed
    {
      var y := Top(l.g);
      var sidx, midx, sline, mline := 0, 0, 0, 0;
      ghost var gs, gm := Start(), Start();
      ghost var doc := Render(l, pages);
      var budget := pages;
      while (sidx < |l.sSecs| || midx < |l.mSecs|) && budget > 0
        invariant gs.idx == sidx && gs.line == sline && gs.printed == printedSidebar
        invariant gm.idx == midx && gm.line == mline && gm.printed == printedMain
        invariant doc == Pages(l, SideLines(l), MainLines(l), budget, y, gs, gm, canvas)
      {
        budget, y, sidx, midx, sline, mline, gs, gm := Call(budget, y, sidx, midx, sline, mline, gs, gm, doc);
      }
      PagesStop(l, SideLines(l), MainLines(l), budget, y, gs, gm, canvas);
      done := !(sidx < |l.sSecs| || midx < |l.mSecs|);
    }
  }
}
