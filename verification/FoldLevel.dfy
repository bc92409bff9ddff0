/** The active document fold level: its layers and the queries over them. */
module FoldLevel {
  import opened Basics
  import opened FoldSpans
  import opened FoldProjection
  import opened FoldCanonical
  import opened FoldLayers

  function Filter(spans: seq<Span>, keep: Span -> bool): (r: seq<Span>)
    ensures forall s :: s in r <==> s in spans && keep(s)
  {
    if spans == [] then []
    else
      var n := |spans| - 1;
      assert spans == spans[..n] + [spans[n]];
      Filter(spans[..n], keep) + if keep(spans[n]) then [spans[n]] else []
  }

  lemma FilterNext(spans: seq<Span>, keep: Span -> bool, i: nat)
    requires i < |spans|
    ensures Filter(spans[..i + 1], keep) == Filter(spans[..i], keep) + if keep(spans[i]) then [spans[i]] else []
  {
    assert spans[..i + 1][..i] == spans[..i];
  }

  predicate StartsIncrease(spans: seq<Span>) {
    forall i, j :: 0 <= i < j < |spans| ==> spans[i].startLine < spans[j].startLine
  }

  lemma {:induction false} FilterStartsIncrease(spans: seq<Span>, keep: Span -> bool)
    requires StartsIncrease(spans)
    ensures StartsIncrease(Filter(spans, keep))
  {
    if spans != [] {
      var n := |spans| - 1;
      FilterStartsIncrease(spans[..n], keep);
      var front := Filter(spans[..n], keep);
      forall i | 0 <= i < |front| ensures front[i].startLine < spans[n].startLine {
        assert front[i] in spans[..n];
      }
    }
  }

  /** A projection as it is after finalize. */
  ghost predicate Final(p: Projection) { p.Valid() && forall s :: s in p.spans ==> !s.open }

  function SpansOf(p: Option<Projection>): seq<Span> { if p.Some? then p.value.spans else [] }

  predicate SameFold(a: Span, b: Span) {
    && a.startLine == b.startLine && a.endLine == b.endLine && a.level == b.level
    && a.sourceKind == b.sourceKind && a.siblingContinuation == b.siblingContinuation
  }

  // ----- what a refresh puts into the viewport and descendant layers

  predicate PreviewsLevel(s: Span, level: nat, from: nat) {
    s.level == level && s.endLine > s.startLine && s.startLine >= from
  }

  predicate InsideOpened(s: Span, openSpans: seq<Span>) {
    exists i :: 0 <= i < |openSpans| && s.startLine > openSpans[i].startLine && s.endLine <= openSpans[i].endLine
  }

  predicate StartsOpened(line: nat, openSpans: seq<Span>) {
    exists i :: 0 <= i < |openSpans| && openSpans[i].startLine == line
  }

  predicate ShownInside(s: Span, openSpans: seq<Span>) {
    s.endLine > s.startLine && !StartsOpened(s.startLine, openSpans) && InsideOpened(s, openSpans)
  }

  function PreviewSpans(visible: seq<Span>, level: nat, from: nat): seq<Span> {
    Finalized(Filter(visible, (s: Span) => PreviewsLevel(s, level, from)))
  }

  function DescendantSpans(visible: seq<Span>, openSpans: seq<Span>): seq<Span> {
    Finalized(Filter(visible, (s: Span) => ShownInside(s, openSpans)))
  }

  predicate KeptBy(o: Span, closing: Span) { o.startLine < closing.startLine || closing.endLine < o.endLine }

  /** A toggle that closes a span also forgets the opened spans inside it. */
  function OpenAfterClosing(openSpans: seq<Span>, closing: Span): seq<Span> {
    if openSpans == [] then []
    else (if KeptBy(openSpans[0], closing) then [openSpans[0]] else []) + OpenAfterClosing(openSpans[1..], closing)
  }

  lemma {:induction false} OpenAfterClosingMembers(openSpans: seq<Span>, closing: Span)
    ensures forall o :: o in OpenAfterClosing(openSpans, closing) <==> o in openSpans && KeptBy(o, closing)
  {
    if openSpans != [] {
      OpenAfterClosingMembers(openSpans[1..], closing);
      assert openSpans == [openSpans[0]] + openSpans[1..];
    }
  }

  // ----- the document fold level

  /** The part of the state that belongs to the active document fold level. */
  datatype LevelState = LevelState(
    active: bool, level: nat, canonicalEndLine: nat, canonical: CanonicalIndex,
    viewport: Option<Projection>, descendants: Option<Projection>, openSpans: seq<Span>)
  {
    ghost function Base(): set<Span> { canonical.Spans() + Elements(SpansOf(viewport)) }

    ghost function Layers(explicitFolds: set<Span>): Layers {
      FoldLayers.Layers(Base(), Elements(SpansOf(descendants)), Elements(openSpans), explicitFolds)
    }

    ghost predicate Indexed() {
      && canonical.Valid()
      && (viewport.Some? ==> Final(viewport.value))
      && (descendants.Some? ==> Final(descendants.value))
      && StartsIncrease(openSpans)
      && (!active ==> canonical.batches == [] && viewport.None? && descendants.None? && openSpans == [])
    }

    function SpanOpen(startLine: nat): (r: bool)
      requires StartsIncrease(openSpans)
      ensures r <==> OpenAt(Elements(openSpans), startLine)
      ensures r <==> StartsOpened(startLine, openSpans)
    {
      var found := PartitionPoint(openSpans, (o: Span) => o.startLine < startLine, 0, |openSpans|);
      assert forall o :: o in openSpans && o.startLine == startLine ==> found < |openSpans| && openSpans[found] == o;
      found != |openSpans| && openSpans[found].startLine == startLine
    }

    function BaseSpanStartingAt(documentLine: nat): (r: Option<Span>)
      requires Indexed()
      ensures r.Some? ==> r.value in Base() && r.value.startLine == documentLine
      ensures r.None? ==> forall s :: s in Base() ==> s.startLine != documentLine
    {
      var fromCanonical := canonical.SpanStartingAt(documentLine);
      var fromViewport := if viewport.Some? then viewport.value.SpanStartingAt(documentLine) else None;
      if fromCanonical.None? then fromViewport
      else if fromViewport.None? then fromCanonical
      else if fromCanonical.value.endLine >= fromViewport.value.endLine then fromCanonical else fromViewport
    }

    function Shut(candidate: Option<Span>): (r: Option<Span>)
      requires StartsIncrease(openSpans)
      ensures r == if candidate.Some? && !OpenAt(Elements(openSpans), candidate.value.startLine) then candidate else None
    {
      if candidate.Some? && SpanOpen(candidate.value.startLine) then None else candidate
    }

    function SpanStartingAt(documentLine: nat): (r: Option<Span>)
      requires Indexed()
      ensures r.Some? ==> r.value in Layers({}).Active() && r.value.startLine == documentLine
      ensures r.None? ==> forall s :: s in Layers({}).Active() ==> s.startLine != documentLine
    {
      var base := Shut(BaseSpanStartingAt(documentLine));
      var descendant := Shut(if descendants.Some? then descendants.value.SpanStartingAt(documentLine) else None);
      if base.None? then descendant
      else if descendant.None? then base
      else if base.value.endLine >= descendant.value.endLine then base else descendant
    }

    function SpanContaining(documentLine: nat): (r: Option<Span>)
      requires Indexed()
      ensures r.Some? ==> r.value in Layers({}).Active() && Holds(r.value, documentLine)
      ensures r.None? ==> forall s :: s in Layers({}).Active() ==> !Holds(s, documentLine)
      ensures r.Some? ==> forall s :: s in Layers({}).Active() && Holds(s, documentLine) ==> Outranks(r.value, s)
    {
      var fromCanonical := canonical.SpanContaining(documentLine);
      var fromViewport := if viewport.Some? then viewport.value.SpanContaining(documentLine) else None;
      var descendant := if descendants.Some? then descendants.value.SpanContaining(documentLine) else None;
      HoldersFound(this, documentLine, fromCanonical, fromViewport, descendant);
      ChosenIsClosed(this, documentLine, fromCanonical, fromViewport, descendant);
      Wider(Wider(Shut(fromCanonical), Shut(fromViewport)), Shut(descendant))
    }

    /** The loop over the opened spans: each base span that was opened gives its lines back. */
    method WithoutOpened(hidden: nat, lo: nat, hi: int, ghost folds: set<Extent>) returns (r: nat)
      requires Indexed() && Family(Base()) && Laminar(folds)
      requires DrawnFrom(Base(), folds) && DrawnFrom(Elements(openSpans), folds)
      requires |Lines(Pick(Base(), lo, hi))| <= hidden
      ensures r == hidden - |Lines(Pick(OpenBase(Layers({})), lo, hi))|
    {
      r := hidden;
      assert Lines(Pick(OpenedBase(Base(), openSpans[..0]), lo, hi)) == {};
      for i := 0 to |openSpans|
        invariant r == hidden - |Lines(Pick(OpenedBase(Base(), openSpans[..i]), lo, hi))|
      {
        var o := openSpans[i];
        var base := BaseSpanStartingAt(o.startLine);
        OpenedBaseNext(Base(), openSpans, i, base, folds, lo, hi);
        r := r - if base.Some? && base.value.endLine == o.endLine && lo <= base.value.startLine && base.value.endLine <= hi
                 then base.value.endLine - base.value.startLine else 0;
      }
      assert openSpans[..|openSpans|] == openSpans;
      assert OpenedBase(Base(), openSpans) == OpenBase(Layers({}));
    }

    method HiddenBefore(documentLine: nat, ghost folds: set<Extent>, ghost levelFolds: set<Extent>) returns (hidden: nat)
      requires Indexed() && Layers({}).Ok(folds, levelFolds)
      requires canonical.Spans() !! Elements(SpansOf(viewport))
      ensures hidden == |Lines(Pick(Layers({}).Active(), 0, documentLine - 1))|
    {
      if active {
        hidden := ActiveHiddenBefore(documentLine, folds, levelFolds);
      } else {
        assert Lines({}) == {} && Pick(Layers({}).Active(), 0, documentLine - 1) == {};
        hidden := 0;
      }
    }

    method ActiveHiddenBefore(documentLine: nat, ghost folds: set<Extent>, ghost levelFolds: set<Extent>) returns (hidden: nat)
      requires Indexed() && Layers({}).Ok(folds, levelFolds) && active
      requires canonical.Spans() !! Elements(SpansOf(viewport))
      ensures hidden == |Lines(Pick(Layers({}).Active(), 0, documentLine - 1))|
    {
      assert Lines({}) == {};
      hidden := canonical.HiddenBefore(documentLine);
      if viewport.Some? { hidden := hidden + viewport.value.HiddenLineCountBefore(documentLine); }
      BaseCounts(this, 0, documentLine - 1);
      assert hidden == |Lines(Pick(Base(), 0, documentLine - 1))|;
      ActiveCount(Layers({}), folds, levelFolds, 0, documentLine - 1);
      ghost var inner := Elements(SpansOf(descendants));
      if descendants.Some? { hidden := hidden + descendants.value.HiddenLineCountBefore(documentLine); }
      else { assert Pick(inner, 0, documentLine - 1) == {}; }
      assert hidden == |Lines(Pick(Base(), 0, documentLine - 1))| + |Lines(Pick(inner, 0, documentLine - 1))|;
      hidden := WithoutOpened(hidden, 0, documentLine - 1, folds);
    }

    /** Lines hidden by the closed projection spans anywhere in the document. */
    method HiddenTotal(ghost folds: set<Extent>, ghost levelFolds: set<Extent>) returns (hidden: nat)
      requires Indexed() && Layers({}).Ok(folds, levelFolds) && active
      requires canonical.Spans() !! Elements(SpansOf(viewport))
      requires forall f :: f in folds ==> f.endLine < SIZE_MAX
      ensures hidden == |Lines(Layers({}).Active())|
      ensures hidden == 0 <==> Layers({}).Active() == {}
    {
      assert Lines({}) == {};
      AllPicked(Layers({}), folds, levelFolds);
      AllPickedBase(this);
      hidden := canonical.HiddenLineCount();
      if viewport.Some? { hidden := hidden + viewport.value.HiddenLineCount(); }
      BaseCounts(this, 0, SIZE_MAX);
      ActiveCount(Layers({}), folds, levelFolds, 0, SIZE_MAX);
      if descendants.Some? { hidden := hidden + descendants.value.HiddenLineCount(); }
      hidden := WithoutOpened(hidden, 0, SIZE_MAX, folds);
    }

    /** Lines the closed projection spans hide inside one fold of the document. */
    method HiddenInFold(startLine: nat, endLine: nat, ghost folds: set<Extent>, ghost levelFolds: set<Extent>) returns (hidden: nat)
      requires Indexed() && Layers({}).Ok(folds, levelFolds)
      requires canonical.Spans() !! Elements(SpansOf(viewport))
      requires exists f :: f in folds && f.startLine == startLine && f.endLine == endLine
      requires forall f :: f in folds ==> f.endLine < SIZE_MAX
      ensures hidden == |Lines(Pick(Layers({}).Active(), startLine, endLine))|
    {
      assert Lines({}) == {};
      if !active {
        assert Pick(Layers({}).Active(), startLine, endLine) == {};
        return 0;
      }
      hidden := canonical.HiddenInRange(startLine, endLine);
      NoSpanEndsAtAHead(canonical.Spans(), folds, startLine, endLine);
      HiddenInRangeExact(canonical, startLine, endLine);
      if viewport.Some? { hidden := hidden + viewport.value.HiddenLineCountInRange(startLine, endLine); }
      BaseCounts(this, startLine, endLine);
      ActiveCount(Layers({}), folds, levelFolds, startLine, endLine);
      if descendants.Some? { hidden := hidden + descendants.value.HiddenLineCountInRange(startLine, endLine); }
      hidden := WithoutOpened(hidden, startLine, endLine, folds);
    }

    /** What one explicit fold adds to the lines the closed projection already hides. */
    method FoldAdds(span: Span, ghost folds: set<Extent>, ghost levelFolds: set<Extent>) returns (added: nat)
      requires Indexed() && Layers({}).Ok(folds, levelFolds)
      requires canonical.Spans() !! Elements(SpansOf(viewport))
      requires ExtentOf(span) in folds
      requires forall f :: f in folds ==> f.endLine < SIZE_MAX
      ensures added == FoldGain(Layers({}).Active(), span)
    {
      var cover := SpanContaining(span.startLine);
      if cover.Some? {
        ActiveFamily(Layers({}), folds, levelFolds);
        HolderCovers(folds, cover.value, span);
      }
      if active && cover.Some? && cover.value.endLine >= span.endLine { return 0; }
      var inside := HiddenInFold(span.startLine, span.endLine, folds, levelFolds);
      var spanHidden := if span.endLine > span.startLine then span.endLine - span.startLine else 0;
      added := spanHidden - Min(spanHidden, inside);
    }

    /** The loop over the explicit folds, up to the first one not ended before the line. */
    method FoldsAdd(explicitFolds: seq<Span>, documentLine: nat, ghost folds: set<Extent>, ghost levelFolds: set<Extent>)
      returns (gain: nat)
      requires Indexed() && Layers({}).Ok(folds, levelFolds)
      requires canonical.Spans() !! Elements(SpansOf(viewport))
      requires DrawnFrom(Elements(explicitFolds), folds)
      requires forall f :: f in folds ==> f.endLine < SIZE_MAX
      ensures gain == TotalGain(Layers({}).Active(), explicitFolds[..EndedBefore(explicitFolds, documentLine)])
    {
      gain := 0;
      var i := 0;
      while i < |explicitFolds| && explicitFolds[i].endLine < documentLine
        invariant i <= |explicitFolds|
        invariant forall j :: 0 <= j < i ==> explicitFolds[j].endLine < documentLine
        invariant gain == TotalGain(Layers({}).Active(), explicitFolds[..i])
      {
        assert explicitFolds[i] in Elements(explicitFolds);
        var added := FoldAdds(explicitFolds[i], folds, levelFolds);
        TotalGainNext(Layers({}).Active(), explicitFolds, i);
        gain := gain + added;
        i := i + 1;
      }
      assert i == EndedBefore(explicitFolds, documentLine);
    }
  }

  /** How many folds come before the first that has not ended before the line. */
  ghost function EndedBefore(folds: seq<Span>, line: nat): (n: nat)
    ensures n <= |folds| && (forall j :: 0 <= j < n ==> folds[j].endLine < line)
    ensures n < |folds| ==> line <= folds[n].endLine
  {
    if folds == [] || line <= folds[0].endLine then 0 else 1 + EndedBefore(folds[1..], line)
  }

  ghost function TotalGain(closed: set<Span>, folds: seq<Span>): nat {
    if folds == [] then 0 else TotalGain(closed, folds[..|folds| - 1]) + FoldGain(closed, folds[|folds| - 1])
  }

  ghost function OpenedBase(base: set<Span>, openSpans: seq<Span>): set<Span> {
    set b | b in base && OpenAt(Elements(openSpans), b.startLine)
  }

  lemma OpenedBaseNext(base: set<Span>, openSpans: seq<Span>, i: nat, found: Option<Span>, folds: set<Extent>, lo: nat, hi: int)
    requires Family(base) && StartsIncrease(openSpans) && i < |openSpans|
    requires Laminar(folds) && DrawnFrom(base, folds) && DrawnFrom(Elements(openSpans), folds)
    requires if found.Some? then found.value in base && found.value.startLine == openSpans[i].startLine
             else forall s :: s in base ==> s.startLine != openSpans[i].startLine
    ensures |Lines(Pick(OpenedBase(base, openSpans[..i + 1]), lo, hi))| ==
      |Lines(Pick(OpenedBase(base, openSpans[..i]), lo, hi))| +
        if found.Some? && found.value.endLine == openSpans[i].endLine && lo <= found.value.startLine && found.value.endLine <= hi
        then found.value.endLine - found.value.startLine else 0
    ensures |Lines(Pick(OpenedBase(base, openSpans[..i + 1]), lo, hi))| <= |Lines(Pick(base, lo, hi))|
  {
    var o := openSpans[i];
    var before, after := OpenedBase(base, openSpans[..i]), OpenedBase(base, openSpans[..i + 1]);
    FamilyMinus(Pick(base, lo, hi), Pick(after, lo, hi));
    OpenedBaseGrows(base, openSpans, i, found);
    if found.Some? {
      var b := found.value;
      assert ExtentOf(b) == ExtentOf(o) by {
        assert o in Elements(openSpans);
        assert Compatible(ExtentOf(b), ExtentOf(o));
      }
      OneMore(base, before, b, lo, hi);
    }
  }

  lemma OpenedBaseGrows(base: set<Span>, openSpans: seq<Span>, i: nat, found: Option<Span>)
    requires Family(base) && StartsIncrease(openSpans) && i < |openSpans|
    requires if found.Some? then found.value in base && found.value.startLine == openSpans[i].startLine
             else forall s :: s in base ==> s.startLine != openSpans[i].startLine
    ensures var before, after := OpenedBase(base, openSpans[..i]), OpenedBase(base, openSpans[..i + 1]);
      if found.Some? then after == before + {found.value} && found.value !in before else after == before
  {
    var o := openSpans[i];
    assert openSpans[..i + 1] == openSpans[..i] + [o];
    assert o in Elements(openSpans[..i + 1]);
    assert Elements(openSpans[..i + 1]) == Elements(openSpans[..i]) + {o};
  }

  lemma OneMore(base: set<Span>, before: set<Span>, b: Span, lo: nat, hi: int)
    requires Family(base) && before <= base && b in base && b !in before
    ensures |Lines(Pick(before + {b}, lo, hi))| ==
      |Lines(Pick(before, lo, hi))| + if lo <= b.startLine && b.endLine <= hi then b.endLine - b.startLine else 0
  {
    PickMinus(before, {b}, lo, hi);
    ApartFamiliesAdd(Pick(before, lo, hi), Pick({b}, lo, hi));
    if lo <= b.startLine && b.endLine <= hi {
      assert Pick({b}, lo, hi) == {b};
      LinesSingle(b);
      LinesOfCount(b);
    } else {
      assert Pick({b}, lo, hi) == {};
      assert Lines({}) == {};
    }
  }

  lemma AllPicked(l: Layers, folds: set<Extent>, levelFolds: set<Extent>)
    requires l.Ok(folds, levelFolds) && forall f :: f in folds ==> f.endLine < SIZE_MAX
    ensures Pick(l.base, 0, SIZE_MAX) == l.base && Pick(l.descendants, 0, SIZE_MAX) == l.descendants
    ensures Pick(l.Active(), 0, SIZE_MAX) == l.Active()
    ensures |Lines(l.Active())| == 0 <==> l.Active() == {}
  {
    ActiveFamily(l, folds, levelFolds);
    SomeLinePicked(l.Active(), 0, SIZE_MAX);
    assert Pick(l.Active(), 0, SIZE_MAX) == l.Active();
  }

  lemma AllPickedBase(l: LevelState)
    requires Pick(l.Base(), 0, SIZE_MAX) == l.Base()
    ensures Pick(l.canonical.Spans(), 0, SIZE_MAX) == l.canonical.Spans()
    ensures Pick(Elements(SpansOf(l.viewport)), 0, SIZE_MAX) == Elements(SpansOf(l.viewport))
  {
    PickMinus(l.canonical.Spans(), Elements(SpansOf(l.viewport)), 0, SIZE_MAX);
    forall s | s in l.Base() ensures s.endLine <= SIZE_MAX {
      assert s in Pick(l.Base(), 0, SIZE_MAX);
    }
  }

  lemma BaseCounts(l: LevelState, lo: nat, hi: int)
    requires Family(l.Base()) && l.canonical.Spans() !! Elements(SpansOf(l.viewport))
    ensures |Lines(Pick(l.Base(), lo, hi))| ==
      |Lines(Pick(l.canonical.Spans(), lo, hi))| + |Lines(Pick(Elements(SpansOf(l.viewport)), lo, hi))|
  {
    PickMinus(l.canonical.Spans(), Elements(SpansOf(l.viewport)), lo, hi);
    ApartFamiliesAdd(Pick(l.canonical.Spans(), lo, hi), Pick(Elements(SpansOf(l.viewport)), lo, hi));
  }

  lemma NoSpanEndsAtAHead(ss: set<Span>, folds: set<Extent>, startLine: nat, endLine: nat)
    requires Laminar(folds) && DrawnFrom(ss, folds)
    requires exists f :: f in folds && f.startLine == startLine && f.endLine == endLine
    ensures startLine < endLine && forall s :: s in ss ==> s.endLine != startLine
  {
    var f :| f in folds && f.startLine == startLine && f.endLine == endLine;
    forall s | s in ss ensures s.endLine != startLine {
      assert Compatible(ExtentOf(s), f);
    }
  }

  lemma ChosenIsClosed(l: LevelState, line: nat, c: Option<Span>, v: Option<Span>, d: Option<Span>)
    requires StartsIncrease(l.openSpans)
    requires forall s :: s in l.Layers({}).Active() && Holds(s, line) ==> c == Some(s) || v == Some(s) || d == Some(s)
    requires c.Some? ==> c.value in l.Base() && Holds(c.value, line)
    requires v.Some? ==> v.value in l.Base() && Holds(v.value, line)
    requires d.Some? ==> d.value in l.Layers({}).descendants && Holds(d.value, line)
    ensures var r := Wider(Wider(l.Shut(c), l.Shut(v)), l.Shut(d));
      if r.Some? then r.value in l.Layers({}).Active() && Holds(r.value, line)
      else forall s :: s in l.Layers({}).Active() ==> !Holds(s, line)
    ensures var r := Wider(Wider(l.Shut(c), l.Shut(v)), l.Shut(d));
      r.Some? ==> forall s :: s in l.Layers({}).Active() && Holds(s, line) ==> Outranks(r.value, s)
  {
  }

  lemma OnlyHolder(spans: seq<Span>, found: Option<Span>, line: nat)
    requires StrictlyApart(spans)
    requires if found.Some? then found.value in spans && Holds(found.value, line) else forall s :: s in spans ==> !Holds(s, line)
    ensures forall s :: s in spans && Holds(s, line) ==> found == Some(s)
  {
  }

  lemma OnlyAdoptedHolder(index: CanonicalIndex, found: Option<Span>, line: nat)
    requires index.Valid()
    requires if found.Some? then found.value in index.Spans() && Holds(found.value, line)
             else forall s :: s in index.Spans() ==> !Holds(s, line)
    ensures forall s :: s in index.Spans() && Holds(s, line) ==> found == Some(s)
  {
    AdoptedFamily(index);
  }

  /** The three candidates are the only projection spans holding the line. */
  lemma HoldersFound(l: LevelState, line: nat, c: Option<Span>, v: Option<Span>, d: Option<Span>)
    requires l.Indexed()
    requires c == l.canonical.SpanContaining(line)
    requires v == if l.viewport.Some? then l.viewport.value.SpanContaining(line) else None
    requires d == if l.descendants.Some? then l.descendants.value.SpanContaining(line) else None
    ensures forall s :: s in l.Layers({}).Active() && Holds(s, line) ==> c == Some(s) || v == Some(s) || d == Some(s)
  {
    OnlyAdoptedHolder(l.canonical, c, line);
    if l.viewport.Some? { OnlyHolder(l.viewport.value.spans, v, line); }
    if l.descendants.Some? { OnlyHolder(l.descendants.value.spans, d, line); }
  }

  /** Of two candidates the one starting earlier, then the longer, then the first. */
  function Wider(result: Option<Span>, candidate: Option<Span>): Option<Span> {
    if candidate.None? then result
    else if result.None? then candidate
    else if candidate.value.startLine < result.value.startLine
         || (candidate.value.startLine == result.value.startLine && candidate.value.endLine > result.value.endLine) then candidate
    else result
  }

  predicate Outranks(s: Span, t: Span) {
    s.startLine < t.startLine || (s.startLine == t.startLine && t.endLine <= s.endLine)
  }

  ghost predicate VisibleDrawnFrom(visible: seq<Span>, document: Document) {
    forall s :: s in visible && Proper(s) ==> ExtentOf(s) in document.folds && ExtentOf(s) in document.levelFolds(s.level)
  }

  ghost predicate ClosedDrawnFrom(closedFolds: map<nat, Span>, document: Document) {
    forall k :: k in closedFolds ==> closedFolds[k].startLine == k && ExtentOf(closedFolds[k]) in document.folds
  }

  /** Canonical spans start before the canonical end, preview spans at or after it. */
  ghost predicate SplitAt(canonical: set<Span>, viewport: seq<Span>, line: nat) {
    (forall s :: s in canonical ==> s.startLine < line) && (forall s :: s in viewport ==> line <= s.startLine)
  }

  lemma ExplicitFoldsDoNotOpen(l: LevelState, explicitFolds: set<Span>, folds: set<Extent>, levelFolds: set<Extent>)
    requires l.Layers(explicitFolds).Ok(folds, levelFolds)
    ensures l.Layers({}).Ok(folds, levelFolds)
    ensures l.Layers({}).Active() == l.Layers(explicitFolds).Active()
  {
  }

  function Outer(projection: Option<Span>, explicitSpan: Option<Span>): Option<Span> {
    if projection.None? then explicitSpan
    else if explicitSpan.None? then projection
    else if explicitSpan.value.startLine < projection.value.startLine then explicitSpan else projection
  }

  /** The choice between the closed span and the explicit fold holding a line yields the outermost one. */
  lemma OuterHolder(l: Layers, folds: set<Extent>, levelFolds: set<Extent>, line: nat, p: Option<Span>, e: Option<Span>)
    requires l.Ok(folds, levelFolds)
    requires if p.Some? then p.value in l.Active() && Holds(p.value, line) else forall s :: s in l.Active() ==> !Holds(s, line)
    requires if e.Some? then e.value in l.explicitFolds && Holds(e.value, line) else forall s :: s in l.explicitFolds ==> !Holds(s, line)
    ensures var r := Outer(p, e);
      if r.Some? then Outermost(l, r.value) && Holds(r.value, line)
      else forall s :: s in l.Active() + l.explicitFolds ==> !Holds(s, line)
  {
    ActiveFamily(l, folds, levelFolds);
    var r := Outer(p, e);
    if r.Some? {
      forall s | s in l.Active() + l.explicitFolds && Holds(s, line) ensures r.value.startLine <= s.startLine {
        if s in l.Active() { assert s == p.value; } else { assert s == e.value; }
      }
      WiderHolderIsOutermost(l, folds, levelFolds, r.value, line);
    }
  }

  lemma SameRowSameLine(l: Layers, line: nat, d: nat)
    requires !l.Hidden(line) && |VisibleUpTo(l, line)| == |VisibleUpTo(l, d)|
    ensures !l.Hidden(d) ==> line == d
    ensures forall s :: Outermost(l, s) && Holds(s, d) ==> line == s.startLine
  {
    if !l.Hidden(d) {
      if line < d { RowsIncrease(l, line, d); } else if d < line { RowsIncrease(l, d, line); }
    }
    forall s | Outermost(l, s) && Holds(s, d) ensures line == s.startLine {
      RowOfHeldLine(l, s, d);
      if line < s.startLine { RowsIncrease(l, line, s.startLine); } else if s.startLine < line { RowsIncrease(l, s.startLine, line); }
    }
  }

  lemma NothingFolded(l: Layers, line: nat)
    requires l.Active() + l.explicitFolds == {}
    ensures !l.Hidden(line) && |VisibleUpTo(l, line)| == line + 1
  {
    RowOfVisibleLine(l, line);
    assert l.HiddenBefore(line) == {};
  }

  lemma ExplicitHolder(folds: seq<Span>, after: nat, line: nat)
    requires StrictlyApart(folds) && after <= |folds|
    requires forall i :: 0 <= i < after ==> folds[i].startLine <= line
    requires forall i :: after <= i < |folds| ==> line < folds[i].startLine
    ensures forall s :: s in folds && Holds(s, line) ==> after > 0 && s == folds[after - 1]
  {
  }

  lemma EndedFolds(folds: seq<Span>, i: nat, line: nat)
    requires StrictlyApart(folds) && i <= |folds|
    requires forall j :: 0 <= j < i ==> folds[j].endLine < line
    requires i < |folds| ==> line <= folds[i].endLine
    ensures Elements(folds[..i]) <= Elements(folds)
    ensures forall e :: e in Elements(folds[..i]) ==> e.endLine < line
    ensures forall e :: e in Elements(folds) && e !in Elements(folds[..i]) ==> line <= e.endLine
  {
    forall e | e in Elements(folds) && e !in Elements(folds[..i]) ensures line <= e.endLine {
      var j :| 0 <= j < |folds| && folds[j] == e;
      assert j < i ==> folds[..i][j] == e;
    }
  }

  lemma TotalGainNext(closed: set<Span>, folds: seq<Span>, i: nat)
    requires i < |folds|
    ensures TotalGain(closed, folds[..i + 1]) == TotalGain(closed, folds[..i]) + FoldGain(closed, folds[i])
  {
    assert folds[..i + 1][..i] == folds[..i];
  }

  /** The loop's total is the number of lines hidden by the closed spans and the folds it visited. */
  lemma {:induction false} TotalGainCounts(closed: set<Span>, folds: set<Extent>, explicitFolds: seq<Span>, k: nat, line: nat)
    requires Laminar(folds) && DrawnFrom(closed, folds) && DrawnFrom(Elements(explicitFolds), folds)
    requires StrictlyApart(explicitFolds) && k <= |explicitFolds| && forall i :: 0 <= i < k ==> explicitFolds[i].endLine < line
    requires forall s :: s in closed ==> !Hides(s, line)
    ensures |Lines(Pick(closed, 0, line - 1))| + TotalGain(closed, explicitFolds[..k])
      == |Lines(Pick(closed, 0, line - 1)) + Lines(Elements(explicitFolds[..k]))|
    decreases k
  {
    if k == 0 {
      assert Lines(Elements(explicitFolds[..k])) == {};
    } else {
      var e := explicitFolds[k - 1];
      TotalGainCounts(closed, folds, explicitFolds, k - 1, line);
      TotalGainNext(closed, explicitFolds, k - 1);
      NextFoldApart(explicitFolds, k - 1);
      assert e in Elements(explicitFolds);
      ExplicitFoldAdds(closed, folds, Elements(explicitFolds[..k - 1]), e, line);
    }
  }

  lemma NextFoldApart(folds: seq<Span>, k: nat)
    requires StrictlyApart(folds) && k < |folds|
    ensures AllApart(Elements(folds[..k]), {folds[k]}) && Elements(folds[..k + 1]) == Elements(folds[..k]) + {folds[k]}
    ensures folds[k].startLine < folds[k].endLine
  {
    assert folds[..k + 1] == folds[..k] + [folds[k]];
  }

  lemma EffectiveCount(l: LevelState, explicitFolds: seq<Span>, i: nat, line: nat, folds: set<Extent>, levelFolds: set<Extent>)
    requires l.Layers({}).Ok(folds, levelFolds)
    requires StrictlyApart(explicitFolds) && DrawnFrom(Elements(explicitFolds), folds) && i <= |explicitFolds|
    requires forall j :: 0 <= j < i ==> explicitFolds[j].endLine < line
    requires i < |explicitFolds| ==> line <= explicitFolds[i].endLine
    ensures var view := l.Layers(Elements(explicitFolds));
      !view.Hidden(line) ==>
        |Lines(Pick(l.Layers({}).Active(), 0, line - 1))| + TotalGain(l.Layers({}).Active(), explicitFolds[..i]) == |view.HiddenBefore(line)|
  {
    var view, closed := l.Layers(Elements(explicitFolds)), l.Layers({}).Active();
    if !view.Hidden(line) {
      assert view.Active() == closed;
      ActiveFamily(l.Layers({}), folds, levelFolds);
      forall s | s in closed ensures !Hides(s, line) {
        assert s in view.Active() + view.explicitFolds;
      }
      EndedFolds(explicitFolds, i, line);
      TotalGainCounts(closed, folds, explicitFolds, i, line);
      VisibleLineCount(view, line, Elements(explicitFolds[..i]));
    }
  }
}
