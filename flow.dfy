/** The two-column page flow of templates 1 to 5: `draw_content` (a loop
    that interleaves the sidebar and the main column, one header and one body
    line per column per round) and the driver around it that starts new pages
    until both columns are placed.

    Drawing is recorded as a trace of marks. Font measurement is the
    parameter `measure`; the wrapped lines of each section come from
    `wrap_text_dynamic` (module Wrap). */
module Flow {
  import opened PyStrings
  import opened Wrap

  /** A section of a column: the key of its content in the resume data, and
      its header text. */
  datatype Section = Section(content: string, header: string)

  /** The resume fields; a missing field is an absent key. */
  type Data = map<string, string>

  /** `data.get(key)` is truthy: present and not empty. */
  predicate Truthy(data: Data, key: string) {
    key in data && data[key] != ""
  }

  datatype Column = Sidebar | Main

  /** What a drawn string is: the banner name and job role, the header of the
      section whose header text is `title`, or a body line. */
  datatype Role = Title | JobRole | HeaderOf(title: string) | Body

  /** One canvas operation: a string drawn in a column at height `y`, a page
      break (`showPage`), or the sidebar background rectangle. */
  datatype Mark = Text(column: Column, y: real, text: string, role: Role) | NewPage | SidebarPanel

  /** Font sizes and spacing of the style dictionary; `jobRoleSize` is
      already resolved to the header size when the style has none. */
  datatype Style = Style(titleSize: real, jobRoleSize: real, headerSize: real, bodySize: real,
                         sectionGap: real, paragraphGap: real)

  /** Page geometry: page size, `margin`, the sidebar width and `bottom_margin`. */
  datatype Geometry = Geometry(pageWidth: real, pageHeight: real, margin: real, sidebarWidth: real, bottom: real)

  /** `height - margin`, where every page starts. */
  function Top(g: Geometry): real {
    g.pageHeight - g.margin
  }

  /** Wrap width of the sidebar: `sidebar_width - sx - 10` with `sx = margin / 2`. */
  function SidebarTextWidth(g: Geometry): real {
    g.sidebarWidth - g.margin / 2.0 - 10.0
  }

  /** Wrap width of the main column: `width - sidebar_width - 2 * margin`. */
  function MainTextWidth(g: Geometry): real {
    g.pageWidth - g.sidebarWidth - 2.0 * g.margin
  }

  /** Height one header takes. */
  function HeaderRoom(st: Style): real {
    st.headerSize + st.sectionGap
  }

  /** Height one body line takes. */
  function LineRoom(st: Style): real {
    st.bodySize + st.paragraphGap
  }

  /** One column inside `draw_content`: the section index, the line index
      within the section, the running `y`, and the set of header texts this
      column has printed in the document. */
  datatype Col = Col(idx: nat, line: nat, y: real, printed: set<string>)

  /** The effect of one column's turn in one round. */
  datatype Step = Step(col: Col, marks: seq<Mark>, drew: bool, blocked: bool)

  /** The column's header is due: first line of the section and not printed yet. */
  predicate HeaderDue(secs: seq<Section>, s: Col)
    requires s.idx < |secs|
  {
    s.line == 0 && secs[s.idx].header !in s.printed
  }

  /** One column's turn: a header if due, one body line if there is one left,
      and the move to the next section once its lines are used up. A failed
      space check stops the turn (`blocked`), keeping what was drawn before it.
      A section whose content is not truthy is left alone. */
  function ColumnStep(c: Column, secs: seq<Section>, data: Data, lines: seq<seq<string>>,
                      st: Style, bottom: real, s: Col): Step
    requires |lines| == |secs|
  {
    if s.idx >= |secs| || !Truthy(data, secs[s.idx].content) then Step(s, [], false, false)
    else
      var h := secs[s.idx].header;
      var due := HeaderDue(secs, s);
      if due && s.y - HeaderRoom(st) <= bottom then Step(s, [], false, true)
      else
        var s1 := if due then s.(y := s.y - HeaderRoom(st), printed := s.printed + {h}) else s;
        var m1 := if due then [Text(c, s.y, Upper(h), HeaderOf(h))] else [];
        var ls := lines[s.idx];
        if s1.line < |ls| && s1.y - LineRoom(st) <= bottom then Step(s1, m1, false, true)
        else
          var drew := s1.line < |ls|;
          var s2 := if drew then s1.(y := s1.y - LineRoom(st), line := s1.line + 1) else s1;
          var m2 := if drew then m1 + [Text(c, s1.y, ls[s1.line], Body)] else m1;
          if s2.line >= |ls| then
            var next := s2.idx + 1;
            Step(s2.(idx := next, line := 0, y := if next < |secs| then s2.y - st.sectionGap else s2.y), m2, drew, false)
          else Step(s2, m2, drew, false)
  }

  /** Number of lines in sections `i` onwards. */
  function SumFrom(lines: seq<seq<string>>, i: nat): nat
    decreases |lines| - i
  {
    if i >= |lines| then 0 else |lines[i]| + SumFrom(lines, i + 1)
  }

  /** What is left of a column: the sections not yet passed plus the lines not
      yet drawn. It drops whenever the cursor moves. */
  function Left(lines: seq<seq<string>>, s: Col): nat {
    if s.idx >= |lines| then 0
    else (|lines| - s.idx) + SumFrom(lines, s.idx + 1)
         + (if s.line < |lines[s.idx]| then |lines[s.idx]| - s.line else 0)
  }

  /** The cursor `(idx, line)` did not move backwards. */
  predicate NotBehind(a: Col, b: Col) {
    a.idx < b.idx || (a.idx == b.idx && a.line <= b.line)
  }

  /** A column's turn moves its cursor forwards (or not at all), and drawing a
      line always moves it; moving it shrinks what is left. */
  lemma StepForward(c: Column, secs: seq<Section>, data: Data, lines: seq<seq<string>>,
                    st: Style, bottom: real, s: Col)
    requires |lines| == |secs|
    ensures var r := ColumnStep(c, secs, data, lines, st, bottom, s);
      NotBehind(s, r.col)
      && Left(lines, r.col) <= Left(lines, s)
      && (r.drew || r.col.idx != s.idx || r.col.line != s.line ==> Left(lines, r.col) < Left(lines, s))
  {
  }

  /** Why a loop ended. */
  datatype Stop =
    | AllPlaced            // both section lists are exhausted
    | NoRoom(col: Column)  // a space check failed in that column
    | NothingDrawn         // a round drew no body line

  /** The end of the `draw_content` loop: both columns and what the loop drew. */
  datatype Flowing = Flowing(side: Col, main: Col, marks: seq<Mark>, stop: Stop)

  /** The `while` loop of `draw_content`: the sidebar's turn, then the main
      column's; any failed check ends the loop for both columns, and so does
      a round without a body line. */
  function Loop(sSecs: seq<Section>, mSecs: seq<Section>, data: Data,
                sLines: seq<seq<string>>, mLines: seq<seq<string>>,
                st: Style, bottom: real, side: Col, main: Col): (r: Flowing)
    requires |sLines| == |sSecs| && |mLines| == |mSecs|
    ensures NotBehind(side, r.side) && NotBehind(main, r.main)
    ensures Left(sLines, r.side) <= Left(sLines, side) && Left(mLines, r.main) <= Left(mLines, main)
    decreases Left(sLines, side) + Left(mLines, main)
  {
    if side.idx >= |sSecs| && main.idx >= |mSecs| then Flowing(side, main, [], AllPlaced)
    else
      var a := ColumnStep(Sidebar, sSecs, data, sLines, st, bottom, side);
      StepForward(Sidebar, sSecs, data, sLines, st, bottom, side);
      if a.blocked then Flowing(a.col, main, a.marks, NoRoom(Sidebar))
      else
        var b := ColumnStep(Main, mSecs, data, mLines, st, bottom, main);
        StepForward(Main, mSecs, data, mLines, st, bottom, main);
        if b.blocked then Flowing(a.col, b.col, a.marks + b.marks, NoRoom(Main))
        else if !(a.drew || b.drew) then Flowing(a.col, b.col, a.marks + b.marks, NothingDrawn)
        else
          var r := Loop(sSecs, mSecs, data, sLines, mLines, st, bottom, a.col, b.col);
          Flowing(r.side, r.main, a.marks + b.marks + r.marks, r.stop)
  }

  /** The wrapped lines of one section; `[]` for a section whose content is
      not truthy (`sidebar_lines.get(idx, [])`). */
  function SectionLines(measure: Measure, data: Data, sec: Section, width: real): seq<string> {
    if Truthy(data, sec.content) then WrapLines(Dynamic, measure, width, data[sec.content]) else []
  }

  /** The wrapped lines of each section. */
  function WrappedSections(measure: Measure, data: Data, secs: seq<Section>, width: real): (r: seq<seq<string>>)
    ensures |r| == |secs|
  {
    seq(|secs|, i requires 0 <= i < |secs| => SectionLines(measure, data, secs[i], width))
  }

  /** `data.get("full_name") or ""`. */
  function FullName(data: Data): string {
    if "full_name" in data then data["full_name"] else ""
  }

  /** The banner drawn when both start indices are 0: the name in capitals and
      the job role when there is one, and the main column's `y` below it. */
  function Banner(data: Data, st: Style, y: real): (seq<Mark>, real) {
    var name := [Text(Main, y, Upper(FullName(data)), Title)];
    var y1 := y - (st.titleSize + 2.0);
    if Truthy(data, "job_role") then
      (name + [Text(Main, y1, data["job_role"], JobRole)], y1 - (st.jobRoleSize + st.sectionGap + 5.0))
    else (name, y1 - st.sectionGap)
  }

  /** What `draw_content` returns, with the updated header sets and what it drew. */
  datatype Outcome = Outcome(y: real, side: Col, main: Col, marks: seq<Mark>, stop: Stop)

  /** The whole environment of one document. */
  datatype Layout = Layout(measure: Measure, st: Style, g: Geometry, data: Data,
                           sSecs: seq<Section>, mSecs: seq<Section>)

  function SideLines(l: Layout): seq<seq<string>> {
    WrappedSections(l.measure, l.data, l.sSecs, SidebarTextWidth(l.g))
  }

  function MainLines(l: Layout): seq<seq<string>> {
    WrappedSections(l.measure, l.data, l.mSecs, MainTextWidth(l.g))
  }

  /** What `draw_content` draws before its loop, and where the main column
      starts: the banner on the call that starts both columns, else nothing. */
  function Opening(l: Layout, y: real, side: Col, main: Col): (seq<Mark>, real) {
    if side.idx == 0 && main.idx == 0 then Banner(l.data, l.st, y) else ([], y)
  }

  /** The wrapped lines have one entry per section of each column. */
  predicate LinesFor(l: Layout, sl: seq<seq<string>>, ml: seq<seq<string>>) {
    |sl| == |l.sSecs| && |ml| == |l.mSecs|
  }

  /** `draw_content(y, sidebar, main, sidx, midx, sline, mline)` with the
      header sets it shares with the rest of the document. The wrapped lines
      `sl` and `ml` are those of `SideLines` and `MainLines`, which each call
      of the source recomputes from the same text and width. */
  function DrawContent(l: Layout, sl: seq<seq<string>>, ml: seq<seq<string>>, y: real, side: Col, main: Col): Outcome
    requires LinesFor(l, sl, ml)
  {
    var banner := Opening(l, y, side, main);
    var r := Loop(l.sSecs, l.mSecs, l.data, sl, ml, l.st, l.g.bottom, side.(y := y), main.(y := banner.1));
    Outcome(if r.side.y <= r.main.y then r.side.y else r.main.y, r.side, r.main, banner.0 + r.marks, r.stop)
  }

  /** Both section lists are placed: the driver's loop condition is false. */
  predicate Placed(l: Layout, side: Col, main: Col) {
    side.idx >= |l.sSecs| && main.idx >= |l.mSecs|
  }

  /** The document so far. */
  datatype Doc = Doc(side: Col, main: Col, marks: seq<Mark>, done: bool)

  /** The driver loop, allowed at most `pages` more calls of `draw_content`. */
  function Pages(l: Layout, sl: seq<seq<string>>, ml: seq<seq<string>>, pages: nat, y: real,
                 side: Col, main: Col, marks: seq<Mark>): Doc
    requires LinesFor(l, sl, ml)
    decreases pages, 1
  {
    if Placed(l, side, main) then Doc(side, main, marks, true)
    else if pages == 0 then Doc(side, main, marks, false)
    else AfterCall(l, sl, ml, pages, DrawContent(l, sl, ml, y, side, main), marks)
  }

  /** What the driver does with the outcome `o` of a call: stop when both
      lists are placed, otherwise `start_new_page` (a page break, the sidebar
      background again, and `y` back at the top) and the next call. */
  function AfterCall(l: Layout, sl: seq<seq<string>>, ml: seq<seq<string>>, pages: nat, o: Outcome, marks: seq<Mark>): Doc
    requires LinesFor(l, sl, ml)
    requires pages > 0
    decreases pages, 0
  {
    if Placed(l, o.side, o.main) then Doc(o.side, o.main, marks + o.marks, true)
    else Pages(l, sl, ml, pages - 1, Top(l.g), o.side, o.main, marks + o.marks + [NewPage, SidebarPanel])
  }

  /** The start of a document: both cursors at the first section with no
      header printed. */
  function Start(): Col {
    Col(0, 0, 0.0, {})
  }

  /** `templateN_draw_resume`'s layout part with a budget of `pages` calls:
      the sidebar background, then the driver from the top of the page. */
  function Render(l: Layout, pages: nat): Doc {
    Pages(l, SideLines(l), MainLines(l), pages, Top(l.g), Start(), Start(), [SidebarPanel])
  }
}
