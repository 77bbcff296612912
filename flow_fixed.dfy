/** A corrected two-column driver: a section without content is passed over,
    as the single-column loop of templates 6 and 7 does, instead of holding
    its column's index for ever. Passing over a section is the same as not
    listing it, so the corrected driver is the driver on the sections that
    have content; with room on a fresh page it always finishes. */
module FlowFixed {
  import opened Flow
  import opened FlowFacts

  /** The sections of `secs` whose content is truthy, in order. */
  function Filled(data: Data, secs: seq<Section>): seq<Section> {
    if secs == [] then []
    else Filled(data, secs[..|secs| - 1])
         + (if Truthy(data, secs[|secs| - 1].content) then [secs[|secs| - 1]] else [])
  }

  /** `Filled` keeps exactly the sections with content, and each only if listed. */
  lemma {:induction false} FilledExactly(data: Data, secs: seq<Section>)
    ensures forall s :: s in Filled(data, secs) <==> s in secs && Truthy(data, s.content)
  {
    if secs != [] {
      var init := secs[..|secs| - 1];
      FilledExactly(data, init);
      assert secs == init + [secs[|secs| - 1]];
    }
  }

  /** With every section truthy, nothing is dropped. */
  lemma {:induction false} FilledAll(data: Data, secs: seq<Section>)
    requires forall i :: 0 <= i < |secs| ==> Truthy(data, secs[i].content)
    ensures Filled(data, secs) == secs
  {
    if secs != [] {
      var init := secs[..|secs| - 1];
      assert forall i :: 0 <= i < |init| ==> init[i] == secs[i];
      FilledAll(data, init);
      assert secs == init + [secs[|secs| - 1]];
    }
  }

  /** The layout with only the sections that have content. */
  function FixedLayout(l: Layout): Layout {
    l.(sSecs := Filled(l.data, l.sSecs), mSecs := Filled(l.data, l.mSecs))
  }

  /** The corrected driver with a budget of `n` calls. */
  function FixedRender(l: Layout, n: nat): Doc {
    Render(FixedLayout(l), n)
  }

  /** The corrected layout has content in every section. */
  lemma FixedAllTruthy(l: Layout)
    ensures AllTruthy(FixedLayout(l))
  {
    var f := FixedLayout(l);
    FilledExactly(l.data, l.sSecs);
    FilledExactly(l.data, l.mSecs);
    assert forall i :: 0 <= i < |f.sSecs| ==> f.sSecs[i] in Filled(l.data, l.sSecs);
    assert forall i :: 0 <= i < |f.mSecs| ==> f.mSecs[i] in Filled(l.data, l.mSecs);
  }

  /** With room on a fresh page, the corrected driver finishes whatever the
      content: every section that has content is placed, in both columns. */
  lemma FixedRenderFinishes(l: Layout, n: nat)
    requires Roomy(l)
    requires n > Work(SideLines(FixedLayout(l)), MainLines(FixedLayout(l)), Start(), Start())
    ensures var doc := FixedRender(l, n);
      doc.done && doc.side.idx == |Filled(l.data, l.sSecs)| && doc.main.idx == |Filled(l.data, l.mSecs)|
  {
    FixedAllTruthy(l);
    assert Roomy(FixedLayout(l));
    RenderFinishes(FixedLayout(l), n);
  }

  /** When every section has content the correction changes nothing. */
  lemma FixedAgrees(l: Layout, n: nat)
    requires AllTruthy(l)
    ensures FixedRender(l, n) == Render(l, n)
  {
    FilledAll(l.data, l.sSecs);
    FilledAll(l.data, l.mSecs);
    assert FixedLayout(l) == l;
  }
}
