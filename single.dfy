/** The single-column body of templates 6 and 7: `template6_ensure_space`
    (a page break when the next item does not fit above the margin) and the
    section loop of `template6_draw_resume`, which draws each section that has
    content as an upper-cased header followed by the lines of
    `template6_wrap_text`. Template 7 repeats both; it only starts the loop at
    another height and underlines each header.

    Drawing is recorded as a trace of items. */
module SingleColumn {
  import opened PyStrings
  import opened Wrap
  import Flow
  import FlowFacts
  import FlowFixed

  /** `margin = 50`. */
  const Margin: real := 50.0

  /** `width, height = A4`, as exact numbers. */
  datatype Page = Page(width: real, height: real)

  /** The font sizes and spacing of the style dictionary the loop uses. */
  datatype Sizes = Sizes(headerSize: real, bodySize: real, sectionGap: real, paragraphGap: real)

  /** One canvas operation: a string drawn at the left margin at height `y`,
      or a page break (`showPage`). */
  datatype Item = Line(y: real, text: string, role: Flow.Role) | PageBreak

  /** The running `y` and everything drawn so far. */
  datatype Pen = Pen(y: real, items: seq<Item>)

  /** `height - margin`, where a new page starts. */
  function PageTop(page: Page): real {
    page.height - Margin
  }

  /** The wrap width `width - 2 * margin`. */
  function BodyWidth(page: Page): real {
    page.width - 2.0 * Margin
  }

  /** Room a header asks for, and how far it moves `y`. */
  function HeaderNeed(sz: Sizes): real {
    sz.headerSize + sz.paragraphGap
  }

  function HeaderDrop(sz: Sizes): real {
    sz.headerSize + sz.paragraphGap * 2.0
  }

  /** Room a body line asks for; it moves `y` by the same amount. */
  function LineNeed(sz: Sizes): real {
    sz.bodySize + sz.paragraphGap
  }

  /** `template6_ensure_space(c, y, needed, height, margin)` on the pen. */
  function Space(page: Page, p: Pen, needed: real): Pen {
    if p.y - needed < Margin then Pen(PageTop(page), p.items + [PageBreak]) else p
  }

  /** Make room for `needed`, draw `text` at the resulting `y`, move down by `drop`. */
  function Place(page: Page, p: Pen, text: string, role: Flow.Role, needed: real, drop: real): Pen {
    var q := Space(page, p, needed);
    Pen(q.y - drop, q.items + [Line(q.y, text, role)])
  }

  /** The loop over the first `n` wrapped lines of a section. */
  function LinesFrom(page: Page, sz: Sizes, p: Pen, lines: seq<string>, n: nat): Pen
    requires n <= |lines|
  {
    if n == 0 then p
    else Place(page, LinesFrom(page, sz, p, lines, n - 1), lines[n - 1], Flow.Body, LineNeed(sz), LineNeed(sz))
  }

  /** The wrapped lines of a section that has content. */
  function BodyOf(measure: Measure, page: Page, data: Flow.Data, sec: Flow.Section): seq<string>
    requires Flow.Truthy(data, sec.content)
  {
    WrapLines(Plain, measure, BodyWidth(page), data[sec.content])
  }

  /** One pass of the section loop: nothing for a section without content,
      else its header, its lines and the section gap. */
  function SectionOut(measure: Measure, page: Page, sz: Sizes, data: Flow.Data, p: Pen, sec: Flow.Section): Pen {
    if !Flow.Truthy(data, sec.content) then p
    else
      var h := Place(page, p, Upper(sec.header), Flow.HeaderOf(sec.header), HeaderNeed(sz), HeaderDrop(sz));
      var ls := BodyOf(measure, page, data, sec);
      var b := LinesFrom(page, sz, h, ls, |ls|);
      Pen(b.y - sz.sectionGap, b.items)
  }

  /** The section loop over the first `n` sections. */
  function SectionsFrom(measure: Measure, page: Page, sz: Sizes, data: Flow.Data, p: Pen,
                        secs: seq<Flow.Section>, n: nat): Pen
    requires n <= |secs|
  {
    if n == 0 then p
    else SectionOut(measure, page, sz, data, SectionsFrom(measure, page, sz, data, p, secs, n - 1), secs[n - 1])
  }

  // ---------------------------------------------------------------------------
  // What the loop draws

  /** The strings of a trace, in order, without the page breaks. */
  function Texts(items: seq<Item>): seq<string> {
    if |items| == 0 then []
    else Texts(items[..|items| - 1]) + (if items[|items| - 1].Line? then [items[|items| - 1].text] else [])
  }

  /** The reference the loop is measured against: for each of the first `n`
      sections that has content, its upper-cased header and then its wrapped
      lines; nothing for the others. */
  function Expected(measure: Measure, page: Page, data: Flow.Data, secs: seq<Flow.Section>, n: nat): seq<string>
    requires n <= |secs|
  {
    if n == 0 then []
    else Expected(measure, page, data, secs, n - 1)
         + (if Flow.Truthy(data, secs[n - 1].content)
            then [Upper(secs[n - 1].header)] + BodyOf(measure, page, data, secs[n - 1]) else [])
  }

  lemma {:induction false} TextsAppend(a: seq<Item>, b: seq<Item>)
    ensures Texts(a + b) == Texts(a) + Texts(b)
    decreases |b|
  {
    if |b| == 0 {
      assert a + b == a;
    } else {
      var init := b[..|b| - 1];
      assert (a + b)[..|a + b| - 1] == a + init;
      TextsAppend(a, init);
      assert b[..|b| - 1] == init;
    }
  }

  /** `ensure_space` adds no text; a placed item adds exactly its text. */
  lemma PlaceTexts(page: Page, p: Pen, text: string, role: Flow.Role, needed: real, drop: real)
    ensures Texts(Place(page, p, text, role, needed, drop).items) == Texts(p.items) + [text]
  {
    var q := Space(page, p, needed);
    TextsAppend(p.items, [PageBreak]);
    assert Texts([PageBreak]) == [];
    TextsAppend(q.items, [Line(q.y, text, role)]);
    assert Texts([Line(q.y, text, role)]) == [text];
  }

  lemma PrefixSnoc<T>(s: seq<T>, n: nat)
    requires 0 < n <= |s|
    ensures s[..n] == s[..n - 1] + [s[n - 1]]
  {
  }

  /** The line loop draws exactly the section's lines, in order. */
  lemma {:induction false} LinesTexts(page: Page, sz: Sizes, p: Pen, lines: seq<string>, n: nat)
    requires n <= |lines|
    ensures Texts(LinesFrom(page, sz, p, lines, n).items) == Texts(p.items) + lines[..n]
  {
    if n == 0 {
      assert Texts(p.items) + lines[..0] == Texts(p.items);
    } else {
      LinesTexts(page, sz, p, lines, n - 1);
      var q := LinesFrom(page, sz, p, lines, n - 1);
      var x, before := lines[n - 1], lines[..n - 1];
      PlaceTexts(page, q, x, Flow.Body, LineNeed(sz), LineNeed(sz));
      PrefixSnoc(lines, n);
      SeqAssoc(Texts(p.items), before, [x]);
    }
  }

  /** One section draws its header and its wrapped lines, or nothing when it
      has no content. */
  lemma SectionTexts(measure: Measure, page: Page, sz: Sizes, data: Flow.Data, p: Pen, sec: Flow.Section)
    ensures Texts(SectionOut(measure, page, sz, data, p, sec).items)
      == Texts(p.items) + (if Flow.Truthy(data, sec.content)
                           then [Upper(sec.header)] + BodyOf(measure, page, data, sec) else [])
  {
    if Flow.Truthy(data, sec.content) {
      var h := Place(page, p, Upper(sec.header), Flow.HeaderOf(sec.header), HeaderNeed(sz), HeaderDrop(sz));
      var ls := BodyOf(measure, page, data, sec);
      PlaceTexts(page, p, Upper(sec.header), Flow.HeaderOf(sec.header), HeaderNeed(sz), HeaderDrop(sz));
      LinesTexts(page, sz, h, ls, |ls|);
      assert ls[..|ls|] == ls;
      SeqAssoc(Texts(p.items), [Upper(sec.header)], ls);
    }
  }

  /** The section loop draws, in order, the header and the wrapped lines of
      every section with content, and skips the others. */
  lemma {:induction false} DrawnTexts(measure: Measure, page: Page, sz: Sizes, data: Flow.Data, p: Pen,
                                      secs: seq<Flow.Section>, n: nat)
    requires n <= |secs|
    ensures Texts(SectionsFrom(measure, page, sz, data, p, secs, n).items)
      == Texts(p.items) + Expected(measure, page, data, secs, n)
  {
    if n == 0 {
      assert Texts(p.items) + [] == Texts(p.items);
    } else {
      DrawnTexts(measure, page, sz, data, p, secs, n - 1);
      var q := SectionsFrom(measure, page, sz, data, p, secs, n - 1);
      SectionTexts(measure, page, sz, data, q, secs[n - 1]);
      var e := if Flow.Truthy(data, secs[n - 1].content)
               then [Upper(secs[n - 1].header)] + BodyOf(measure, page, data, secs[n - 1]) else [];
      SeqAssoc(Texts(p.items), Expected(measure, page, data, secs, n - 1), e);
    }
  }

  /** Sections without content leave no trace at all: the loop over the
      listed sections ends exactly as the loop over only those with content. */
  lemma {:induction false} EmptySectionsLeaveNoTrace(measure: Measure, page: Page, sz: Sizes, data: Flow.Data, p: Pen,
                                                     secs: seq<Flow.Section>)
    ensures SectionsFrom(measure, page, sz, data, p, secs, |secs|)
      == SectionsFrom(measure, page, sz, data, p, FlowFixed.Filled(data, secs), |FlowFixed.Filled(data, secs)|)
    decreases |secs|
  {
    if secs != [] {
      var init := secs[..|secs| - 1];
      var last := secs[|secs| - 1];
      var fi := FlowFixed.Filled(data, init);
      assert secs == init + [last];
      EmptySectionsLeaveNoTrace(measure, page, sz, data, p, init);
      SectionsSnoc(measure, page, sz, data, p, init, last, secs);
      if Flow.Truthy(data, last.content) {
        assert FlowFixed.Filled(data, secs) == fi + [last];
        SectionsSnoc(measure, page, sz, data, p, fi, last, fi + [last]);
      } else {
        assert FlowFixed.Filled(data, secs) == fi;
        assert SectionOut(measure, page, sz, data, SectionsFrom(measure, page, sz, data, p, init, |init|), last)
          == SectionsFrom(measure, page, sz, data, p, init, |init|);
      }
    }
  }

  /** One more section is one more pass of the loop. */
  lemma SectionsSnoc(measure: Measure, page: Page, sz: Sizes, data: Flow.Data, p: Pen,
                     s: seq<Flow.Section>, x: Flow.Section, t: seq<Flow.Section>)
    requires t == s + [x]
    ensures SectionsFrom(measure, page, sz, data, p, t, |t|)
      == SectionOut(measure, page, sz, data, SectionsFrom(measure, page, sz, data, p, s, |s|), x)
  {
    assert t[..|s|] == s[..|s|];
    SectionsPrefix(measure, page, sz, data, p, t, s, |s|);
  }

  /** The loop over the first `n` sections only sees those sections. */
  lemma {:induction false} SectionsPrefix(measure: Measure, page: Page, sz: Sizes, data: Flow.Data, p: Pen,
                                          s: seq<Flow.Section>, t: seq<Flow.Section>, n: nat)
    requires n <= |s| && n <= |t| && s[..n] == t[..n]
    ensures SectionsFrom(measure, page, sz, data, p, s, n) == SectionsFrom(measure, page, sz, data, p, t, n)
  {
    if n > 0 {
      assert s[..n - 1] == s[..n][..n - 1] && t[..n - 1] == t[..n][..n - 1];
      assert s[n - 1] == s[..n][n - 1] && t[n - 1] == t[..n][n - 1];
      SectionsPrefix(measure, page, sz, data, p, s, t, n - 1);
    }
  }

  // ---------------------------------------------------------------------------
  // Where the loop draws

  /** `template6_ensure_space` leaves `y` alone exactly when `y - needed` is
      at least the margin; otherwise it adds a page break and goes back to the
      top of the page. After it there is room for `needed` unless even a
      fresh page has none. */
  lemma SpaceRoom(page: Page, p: Pen, needed: real)
    ensures var q := Space(page, p, needed);
      (q == p <==> p.y - needed >= Margin)
      && (q.items == p.items || q.items == p.items + [PageBreak])
      && (q.y - needed >= Margin || (q.y == PageTop(page) && PageTop(page) - needed < Margin))
      && (p.y - needed < Margin ==> q == Pen(PageTop(page), p.items + [PageBreak]))
  {
    if p.y - needed < Margin {
      assert |p.items + [PageBreak]| != |p.items|;
    }
  }

  /** How far above the margin the item of role `role` has to start. */
  function NeedOf(sz: Sizes, role: Flow.Role): real {
    if role.HeaderOf? then HeaderNeed(sz) else LineNeed(sz)
  }

  /** Every drawn string had room for its height above the margin, or follows
      a page break at the top of the page. */
  predicate PlacedWell(page: Page, sz: Sizes, items: seq<Item>) {
    forall i :: 0 <= i < |items| ==> WellAt(page, sz, items, i)
  }

  /** The item at `i` is a page break, fits, or starts the page after a break. */
  predicate WellAt(page: Page, sz: Sizes, items: seq<Item>, i: nat)
    requires i < |items|
  {
    items[i].Line? ==>
      items[i].y - NeedOf(sz, items[i].role) >= Margin
      || (i > 0 && items[i - 1] == PageBreak && items[i].y == PageTop(page))
  }

  lemma PlaceWell(page: Page, sz: Sizes, p: Pen, text: string, role: Flow.Role, drop: real)
    requires PlacedWell(page, sz, p.items)
    ensures PlacedWell(page, sz, Place(page, p, text, role, NeedOf(sz, role), drop).items)
  {
    var q := Space(page, p, NeedOf(sz, role));
    if p.y - NeedOf(sz, role) < Margin {
      WellBreak(page, sz, p.items);
    }
    WellLine(page, sz, q.items, Line(q.y, text, role));
  }

  /** A page break keeps `PlacedWell`. */
  lemma WellBreak(page: Page, sz: Sizes, items: seq<Item>)
    requires PlacedWell(page, sz, items)
    ensures PlacedWell(page, sz, items + [PageBreak])
  {
    var r := items + [PageBreak];
    forall i | 0 <= i < |r| ensures WellAt(page, sz, r, i) {
      if i < |items| {
        assert WellAt(page, sz, items, i);
        assert r[i] == items[i];
        if i > 0 {
          assert r[i - 1] == items[i - 1];
        }
      }
    }
  }

  /** A string that fits, or sits at the top right after a page break, keeps `PlacedWell`. */
  lemma WellLine(page: Page, sz: Sizes, items: seq<Item>, x: Item)
    requires PlacedWell(page, sz, items)
    requires x.Line?
    requires x.y - NeedOf(sz, x.role) >= Margin
      || (items != [] && items[|items| - 1] == PageBreak && x.y == PageTop(page))
    ensures PlacedWell(page, sz, items + [x])
  {
    var r := items + [x];
    forall i | 0 <= i < |r| ensures WellAt(page, sz, r, i) {
      if i < |items| {
        assert WellAt(page, sz, items, i);
        assert r[i] == items[i];
      } else {
        assert r[i] == x;
      }
      if 0 < i {
        assert r[i - 1] == items[i - 1];
      }
    }
  }

  lemma {:induction false} LinesWell(page: Page, sz: Sizes, p: Pen, lines: seq<string>, n: nat)
    requires n <= |lines|
    requires PlacedWell(page, sz, p.items)
    ensures PlacedWell(page, sz, LinesFrom(page, sz, p, lines, n).items)
  {
    if n > 0 {
      LinesWell(page, sz, p, lines, n - 1);
      PlaceWell(page, sz, LinesFrom(page, sz, p, lines, n - 1), lines[n - 1], Flow.Body, LineNeed(sz));
    }
  }

  lemma SectionWell(measure: Measure, page: Page, sz: Sizes, data: Flow.Data, p: Pen, sec: Flow.Section)
    requires PlacedWell(page, sz, p.items)
    ensures PlacedWell(page, sz, SectionOut(measure, page, sz, data, p, sec).items)
  {
    if Flow.Truthy(data, sec.content) {
      var role := Flow.HeaderOf(sec.header);
      PlaceWell(page, sz, p, Upper(sec.header), role, HeaderDrop(sz));
      var h := Place(page, p, Upper(sec.header), role, HeaderNeed(sz), HeaderDrop(sz));
      var ls := BodyOf(measure, page, data, sec);
      LinesWell(page, sz, h, ls, |ls|);
    }
  }

  /** Every header and line of the section loop passed its space check or
      starts a fresh page. */
  lemma {:induction false} SectionsWell(measure: Measure, page: Page, sz: Sizes, data: Flow.Data, p: Pen,
                                        secs: seq<Flow.Section>, n: nat)
    requires n <= |secs|
    requires PlacedWell(page, sz, p.items)
    ensures PlacedWell(page, sz, SectionsFrom(measure, page, sz, data, p, secs, n).items)
  {
    if n > 0 {
      SectionsWell(measure, page, sz, data, p, secs, n - 1);
      SectionWell(measure, page, sz, data, SectionsFrom(measure, page, sz, data, p, secs, n - 1), secs[n - 1]);
    }
  }

  /** When a fresh page has room for a header and for a line, every string
      the loop draws on an empty canvas starts at least its needed height
      above the margin. */
  lemma AllFit(measure: Measure, page: Page, sz: Sizes, data: Flow.Data, y: real, secs: seq<Flow.Section>)
    requires PageTop(page) - HeaderNeed(sz) >= Margin && PageTop(page) - LineNeed(sz) >= Margin
    ensures var items := SectionsFrom(measure, page, sz, data, Pen(y, []), secs, |secs|).items;
      forall i :: 0 <= i < |items| && items[i].Line? ==> items[i].y - NeedOf(sz, items[i].role) >= Margin
  {
    SectionsWell(measure, page, sz, data, Pen(y, []), secs, |secs|);
    var items := SectionsFrom(measure, page, sz, data, Pen(y, []), secs, |secs|).items;
    forall i | 0 <= i < |items| && items[i].Line?
      ensures items[i].y - NeedOf(sz, items[i].role) >= Margin
    {
      assert WellAt(page, sz, items, i);
      if items[i].role.HeaderOf? {
        assert NeedOf(sz, items[i].role) == HeaderNeed(sz);
      } else {
        assert NeedOf(sz, items[i].role) == LineNeed(sz);
      }
    }
  }

  // ---------------------------------------------------------------------------
  // The canvas

  /** The canvas of one single-column resume and the section loop that draws
      on it. */
  class Sheet {
    const measure: Measure
    const page: Page
    const sz: Sizes
    var canvas: seq<Item>

    constructor (measure: Measure, page: Page, sz: Sizes)
      ensures this.measure == measure && this.page == page && this.sz == sz && canvas == []
    {
      this.measure := measure;
      this.page := page;
      this.sz := sz;
      canvas := [];
    }

    /** `template6_ensure_space(c, y, needed, height, margin)`. */
    method EnsureSpace(y: real, needed: real) returns (y': real)
      modifies this`canvas
      ensures Pen(y', canvas) == Space(page, Pen(y, old(canvas)), needed)
    {
      if y - needed < Margin {
        canvas := canvas + [PageBreak];
        y' := page.height - Margin;
      } else {
        y' := y;
      }
    }

    /** The `for line in lines` loop of one section. */
    method DrawLines(lines: seq<string>, y0: real) returns (y: real)
      modifies this`canvas
      ensures Pen(y, canvas) == LinesFrom(page, sz, Pen(y0, old(canvas)), lines, |lines|)
    {
      y := y0;
      var i := 0;
      while i < |lines|
        invariant 0 <= i <= |lines|
        invariant Pen(y, canvas) == LinesFrom(page, sz, Pen(y0, old(canvas)), lines, i)
      {
        var needed := sz.bodySize + sz.paragraphGap;
        y := EnsureSpace(y, needed);
        canvas := canvas + [Line(y, lines[i], Flow.Body)];
        y := y - (sz.bodySize + sz.paragraphGap);
        i := i + 1;
      }
    }

    /** The `for title, content in sections` loop of `template6_draw_resume`
        from height `y0`. */
    method DrawSections(data: Flow.Data, secs: seq<Flow.Section>, y0: real) returns (y: real)
      modifies this`canvas
      ensures Pen(y, canvas) == SectionsFrom(measure, page, sz, data, Pen(y0, old(canvas)), secs, |secs|)
    {
      y := y0;
      var k := 0;
      while k < |secs|
        invariant 0 <= k <= |secs|
        invariant Pen(y, canvas) == SectionsFrom(measure, page, sz, data, Pen(y0, old(canvas)), secs, k)
      {
        y := DrawSection(data, secs[k], y);
        k := k + 1;
      }
    }

    /** One pass of the section loop. */
    method DrawSection(data: Flow.Data, sec: Flow.Section, y0: real) returns (y: real)
      modifies this`canvas
      ensures Pen(y, canvas) == SectionOut(measure, page, sz, data, Pen(y0, old(canvas)), sec)
    {
      y := y0;
      if sec.content in data && data[sec.content] != "" {
        ghost var h := Place(page, Pen(y0, canvas), Upper(sec.header), Flow.HeaderOf(sec.header), HeaderNeed(sz), HeaderDrop(sz));
        var needed := sz.headerSize + sz.paragraphGap;
        y := EnsureSpace(y, needed);
        canvas := canvas + [Line(y, Upper(sec.header), Flow.HeaderOf(sec.header))];
        y := y - (sz.headerSize + sz.paragraphGap * 2.0);
        assert Pen(y, canvas) == h;
        var lines := WrapTextPlain(measure, data[sec.content], page.width - 2.0 * Margin);
        assert lines == BodyOf(measure, page, data, sec);
        y := DrawLines(lines, y);
        y := y - sz.sectionGap;
      }
    }
  }
}
