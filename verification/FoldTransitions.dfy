/** How the fold layers change: refresh, toggle and adoption keep them drawn from one document. */
module FoldTransitions {
  import opened Basics
  import opened FoldSpans
  import opened FoldProjection
  import opened FoldCanonical
  import opened FoldLayers
  import opened FoldLevel

  const NO_BATCHES := CanonicalIndex([], [], [], [0])
  const CLEARED := CanonicalIndex([], [], [], [])

  lemma EmptyIndex(index: CanonicalIndex)
    requires index == NO_BATCHES || index == CLEARED
    ensures index.Valid() && index.Spans() == {}
  {
    assert index.batches[..0] == [];
    assert Lines(Adopted([])) == {};
  }

  const INACTIVE := LevelState(false, 0, 0, CLEARED, None, None, [])

  lemma InactiveLevel(document: Document, explicitFolds: set<Span>)
    requires document.WellFormed() && Family(explicitFolds) && DrawnFrom(explicitFolds, document.folds)
    ensures INACTIVE.Indexed() && INACTIVE.canonical.Spans() == {}
    ensures INACTIVE.Layers(explicitFolds).Ok(document.folds, document.levelFolds(0))
  {
    EmptyIndex(CLEARED);
  }

  /** Everything the level state promises before its viewport and descendant layers are rebuilt. */
  ghost predicate Core(l: LevelState, folds: set<Extent>, levelFolds: set<Extent>) {
    && l.Indexed()
    && DrawnFrom(l.canonical.Spans(), levelFolds)
    && (forall s :: s in l.canonical.Spans() ==> s.startLine < l.canonicalEndLine)
    && DrawnFrom(Elements(l.openSpans), folds)
    && AllRooted(l.openSpans, levelFolds)
  }

  ghost predicate AllRooted(openSpans: seq<Span>, levelFolds: set<Extent>) {
    forall o :: o in openSpans ==> RootedIn(o, Elements(openSpans), levelFolds)
  }

  method Build(spans: seq<Span>) returns (p: Projection)
    ensures Final(p) && p.spans == Finalized(spans)
  {
    var builder := new ProjectionBuilder();
    builder.spans := spans;
    builder.Finalize();
    p := builder.Share();
    FinalizedApart(spans);
  }

  lemma FinalizedFamily(spans: seq<Span>)
    requires StrictlyApart(spans)
    ensures Family(Elements(spans))
  {
  }

  lemma PreviewSource(visible: seq<Span>, level: nat, from: nat, v: Span, document: Document)
    requires VisibleDrawnFrom(visible, document) && v in PreviewSpans(visible, level, from)
    ensures ExtentOf(v) in document.levelFolds(level) && from <= v.startLine
  {
    var input := Filter(visible, (s: Span) => PreviewsLevel(s, level, from));
    FinalizedApart(input);
    var s :| s in input && Proper(s) && v == Closed(s);
  }

  lemma DescendantSource(visible: seq<Span>, openSpans: seq<Span>, d: Span, document: Document)
    requires VisibleDrawnFrom(visible, document) && d in DescendantSpans(visible, openSpans)
    ensures ExtentOf(d) in document.folds && Under(d, Elements(openSpans)) && !OpenAt(Elements(openSpans), d.startLine)
  {
    var input := Filter(visible, (s: Span) => ShownInside(s, openSpans));
    FinalizedApart(input);
    var s :| s in input && Proper(s) && d == Closed(s);
    assert ShownInside(s, openSpans);
    var i :| 0 <= i < |openSpans| && s.startLine > openSpans[i].startLine && s.endLine <= openSpans[i].endLine;
    assert openSpans[i] in Elements(openSpans) && Nested(ExtentOf(d), ExtentOf(openSpans[i]));
  }

  /** Every visible span of the level from the canonical end on is in the preview. */
  lemma PreviewComplete(visible: seq<Span>, level: nat, from: nat, s: Span, document: Document)
    requires document.WellFormed() && VisibleDrawnFrom(visible, document)
    requires s in visible && s.level == level && s.startLine < s.endLine && from <= s.startLine
    ensures exists v :: v in PreviewSpans(visible, level, from) && ExtentOf(v) == ExtentOf(s)
  {
    var input := Filter(visible, (s: Span) => PreviewsLevel(s, level, from));
    FilteredCompatible(visible, (s: Span) => PreviewsLevel(s, level, from), document);
    var v := FinalizedContains(input, s);
    PreviewSource(visible, level, from, v, document);
    SameLevelFold(document, level, ExtentOf(v), ExtentOf(s));
  }

  lemma SameLevelFold(document: Document, level: nat, f: Extent, g: Extent)
    requires document.WellFormed() && f in document.levelFolds(level) && g in document.levelFolds(level)
    requires f.startLine <= g.startLine && g.endLine <= f.endLine && g.startLine < g.endLine
    ensures f == g
  {
    var folds := document.levelFolds(level);
    assert forall f, g :: f in folds && g in folds ==> f == g || Apart(f, g);
  }

  /** Every visible span inside an opened one, and not opened itself, lies in a descendant. */
  lemma DescendantsComplete(visible: seq<Span>, openSpans: seq<Span>, s: Span, o: Span, document: Document)
    requires document.WellFormed() && VisibleDrawnFrom(visible, document)
    requires s in visible && s.startLine < s.endLine && o in openSpans && o.startLine < s.startLine && s.endLine <= o.endLine
    requires forall q :: q in openSpans ==> q.startLine != s.startLine
    ensures exists d :: d in DescendantSpans(visible, openSpans) && d.startLine <= s.startLine && s.endLine <= d.endLine
  {
    var input := Filter(visible, (s: Span) => ShownInside(s, openSpans));
    FilteredCompatible(visible, (s: Span) => ShownInside(s, openSpans), document);
    var i :| 0 <= i < |openSpans| && openSpans[i] == o;
    assert InsideOpened(s, openSpans) && s in input;
    var d := FinalizedContains(input, s);
  }

  lemma FilteredCompatible(visible: seq<Span>, keep: Span -> bool, document: Document)
    requires document.WellFormed() && VisibleDrawnFrom(visible, document)
    ensures CompatibleSpans(Filter(visible, keep))
  {
    var input := Filter(visible, keep);
    forall s, t | s in input && t in input && Proper(s) && Proper(t) ensures Compatible(ExtentOf(s), ExtentOf(t)) {
      assert ExtentOf(s) in document.folds && ExtentOf(t) in document.folds;
    }
  }

  lemma BaseFamily(c: set<Span>, v: set<Span>, levelFolds: set<Extent>, line: nat)
    requires Family(c) && Family(v) && DrawnFrom(c, levelFolds) && DrawnFrom(v, levelFolds)
    requires forall f, g :: f in levelFolds && g in levelFolds ==> f == g || Apart(f, g)
    requires forall s :: s in c ==> s.startLine < line
    requires forall s :: s in v ==> line <= s.startLine
    ensures Family(c + v) && DrawnFrom(c + v, levelFolds) && c !! v
  {
    forall s, t | s in c && t in v ensures Apart(ExtentOf(s), ExtentOf(t)) {
      assert ExtentOf(s) in levelFolds && ExtentOf(t) in levelFolds;
    }
  }

  /** After a refresh the layers are coherent again, whatever they held before. */
  lemma RefreshedOk(l: LevelState, visible: seq<Span>, explicitFolds: set<Span>, document: Document)
    requires document.WellFormed() && VisibleDrawnFrom(visible, document)
    requires Core(l, document.folds, document.levelFolds(l.level))
    requires Family(explicitFolds) && DrawnFrom(explicitFolds, document.folds)
    requires SpansOf(l.viewport) == [] || SpansOf(l.viewport) == PreviewSpans(visible, l.level, l.canonicalEndLine)
    requires SpansOf(l.descendants) == [] || SpansOf(l.descendants) == DescendantSpans(visible, l.openSpans)
    ensures l.Layers(explicitFolds).Ok(document.folds, document.levelFolds(l.level))
    ensures SplitAt(l.canonical.Spans(), SpansOf(l.viewport), l.canonicalEndLine)
  {
    var levelFolds := document.levelFolds(l.level);
    var c, v, d := l.canonical.Spans(), SpansOf(l.viewport), SpansOf(l.descendants);
    AdoptedFamily(l.canonical);
    FinalizedFamily(v);
    FinalizedFamily(d);
    forall s | s in v ensures ExtentOf(s) in levelFolds && l.canonicalEndLine <= s.startLine {
      PreviewSource(visible, l.level, l.canonicalEndLine, s, document);
    }
    forall s | s in d
      ensures ExtentOf(s) in document.folds && Under(s, Elements(l.openSpans)) && !OpenAt(Elements(l.openSpans), s.startLine)
    {
      DescendantSource(visible, l.openSpans, s, document);
    }
    BaseFamily(c, Elements(v), levelFolds, l.canonicalEndLine);
  }

  // ----- toggling

  lemma RootedAfterClosing(openSpans: seq<Span>, closing: Span, folds: set<Extent>, levelFolds: set<Extent>)
    requires StartsIncrease(openSpans) && DrawnFrom(Elements(openSpans), folds) && AllRooted(openSpans, levelFolds)
    ensures var r := OpenAfterClosing(openSpans, closing);
      StartsIncrease(r) && DrawnFrom(Elements(r), folds) && AllRooted(r, levelFolds)
  {
    var r := OpenAfterClosing(openSpans, closing);
    ClosingStartsIncrease(openSpans, closing);
    OpenAfterClosingMembers(openSpans, closing);
    forall o | o in r ensures RootedIn(o, Elements(r), levelFolds) {
      if ExtentOf(o) !in levelFolds {
        assert o in openSpans;
        var p :| p in Elements(openSpans) && ExtentOf(p) in levelFolds && Nested(ExtentOf(o), ExtentOf(p));
        assert p in Elements(r);
      }
    }
  }

  lemma RootedAfterOpening(l: LevelState, s: Span, k: nat, folds: set<Extent>, levelFolds: set<Extent>)
    requires l.Layers({}).Ok(folds, levelFolds) && StartsIncrease(l.openSpans) && s in l.Layers({}).Active()
    requires k <= |l.openSpans|
    requires forall i :: 0 <= i < k ==> l.openSpans[i].startLine < s.startLine
    requires forall i :: k <= i < |l.openSpans| ==> s.startLine < l.openSpans[i].startLine
    ensures var r := l.openSpans[..k] + [s] + l.openSpans[k..];
      StartsIncrease(r) && Elements(r) == Elements(l.openSpans) + {s} && DrawnFrom(Elements(r), folds) && AllRooted(r, levelFolds)
  {
    var r := l.openSpans[..k] + [s] + l.openSpans[k..];
    InsertedElements(l.openSpans, s, k);
    ActiveFamily(l.Layers({}), folds, levelFolds);
    assert RootedIn(s, Elements(r), levelFolds) by {
      if s in l.Layers({}).descendants {
        var p := RootOf(l.Layers({}), folds, levelFolds, s);
        assert p in Elements(r);
      }
    }
    forall o | o in r ensures RootedIn(o, Elements(r), levelFolds) {
      if o != s {
        StaysRooted(o, Elements(l.openSpans), Elements(r), levelFolds);
      }
    }
  }

  lemma InsertedElements(spans: seq<Span>, s: Span, k: nat)
    requires StartsIncrease(spans) && k <= |spans|
    requires forall i :: 0 <= i < k ==> spans[i].startLine < s.startLine
    requires forall i :: k <= i < |spans| ==> s.startLine < spans[i].startLine
    ensures var r := spans[..k] + [s] + spans[k..]; StartsIncrease(r) && Elements(r) == Elements(spans) + {s}
  {
    assert spans == spans[..k] + spans[k..];
  }

  lemma StaysRooted(o: Span, before: set<Span>, after: set<Span>, levelFolds: set<Extent>)
    requires RootedIn(o, before, levelFolds) && before <= after
    ensures RootedIn(o, after, levelFolds)
  {
  }

  method CloseInside(openSpans: seq<Span>, closing: Span) returns (r: seq<Span>)
    requires StartsIncrease(openSpans)
    requires forall i :: 0 <= i < |openSpans| ==> openSpans[i].startLine < openSpans[i].endLine
    ensures r == OpenAfterClosing(openSpans, closing)
  {
    var found := PartitionPoint(openSpans, (o: Span) => o.startLine < closing.startLine, 0, |openSpans|);
    var front, back := openSpans[..found], openSpans[found..];
    StartsBehind(openSpans, found, closing);
    KeptFront(front, back, closing);
    assert front + back == openSpans;
    var rest := EraseInside(back, closing);
    r := front + rest;
  }

  lemma StartsBehind(openSpans: seq<Span>, found: nat, closing: Span)
    requires StartsIncrease(openSpans) && found <= |openSpans|
    requires forall i :: 0 <= i < |openSpans| ==> openSpans[i].startLine < openSpans[i].endLine
    requires forall i :: 0 <= i < found ==> openSpans[i].startLine < closing.startLine
    requires found < |openSpans| ==> closing.startLine <= openSpans[found].startLine
    ensures var front, back := openSpans[..found], openSpans[found..];
      && (forall i :: 0 <= i < |front| ==> KeptBy(front[i], closing)) && StartsIncrease(back)
      && forall i :: 0 <= i < |back| ==> closing.startLine <= back[i].startLine < back[i].endLine
  {
  }

  /** The erase loop of a closing toggle, from the closing span on. */
  method EraseInside(spans: seq<Span>, closing: Span) returns (r: seq<Span>)
    requires StartsIncrease(spans)
    requires forall i :: 0 <= i < |spans| ==> closing.startLine <= spans[i].startLine < spans[i].endLine
    ensures r == OpenAfterClosing(spans, closing)
  {
    r := [];
    var i := 0;
    while i < |spans| && spans[i].startLine <= closing.endLine
      invariant 0 <= i <= |spans|
      invariant r + OpenAfterClosing(spans[i..], closing) == OpenAfterClosing(spans, closing)
      decreases |spans| - i
    {
      ClosingNext(spans, i, closing);
      r := r + if spans[i].endLine > closing.endLine then [spans[i]] else [];
      i := i + 1;
    }
    KeptRest(spans, i, closing);
    r := r + spans[i..];
  }

  lemma ClosingNext(openSpans: seq<Span>, i: nat, closing: Span)
    requires i < |openSpans|
    ensures OpenAfterClosing(openSpans[i..], closing) ==
      (if KeptBy(openSpans[i], closing) then [openSpans[i]] else []) + OpenAfterClosing(openSpans[i + 1..], closing)
  {
    assert openSpans[i..][1..] == openSpans[i + 1..];
  }

  lemma {:induction false} KeptFront(front: seq<Span>, back: seq<Span>, closing: Span)
    requires forall i :: 0 <= i < |front| ==> KeptBy(front[i], closing)
    ensures OpenAfterClosing(front + back, closing) == front + OpenAfterClosing(back, closing)
  {
    if front == [] {
      assert front + back == back;
    } else {
      KeptFront(front[1..], back, closing);
      assert (front + back)[1..] == front[1..] + back;
    }
  }

  lemma KeptRest(openSpans: seq<Span>, i: nat, closing: Span)
    requires StartsIncrease(openSpans) && i <= |openSpans|
    requires forall i :: 0 <= i < |openSpans| ==> openSpans[i].startLine < openSpans[i].endLine
    requires i < |openSpans| ==> closing.endLine < openSpans[i].startLine
    ensures OpenAfterClosing(openSpans[i..], closing) == openSpans[i..]
  {
    var back := openSpans[i..];
    forall j | 0 <= j < |back| ensures KeptBy(back[j], closing) {
      assert back[j] == openSpans[i + j];
    }
    KeptFront(back, [], closing);
    assert back + [] == back;
  }

  lemma {:induction false} ClosingStartsIncrease(openSpans: seq<Span>, closing: Span)
    requires StartsIncrease(openSpans)
    ensures StartsIncrease(OpenAfterClosing(openSpans, closing))
  {
    if openSpans != [] {
      var rest := OpenAfterClosing(openSpans[1..], closing);
      ClosingStartsIncrease(openSpans[1..], closing);
      OpenAfterClosingMembers(openSpans[1..], closing);
      forall k | 0 <= k < |rest| ensures openSpans[0].startLine < rest[k].startLine {
        assert rest[k] in openSpans[1..];
      }
    }
  }

  // ----- adopting

  /** An opened span is kept if the canonical or preview span there, or else a visible one, is still the same. */
  predicate StillOpen(o: Span, canonical: Option<Span>, preview: Option<Span>, visible: seq<Span>) {
    || (canonical.Some? && canonical.value.endLine == o.endLine && canonical.value.sourceKind == o.sourceKind)
    || (preview.Some? && preview.value.endLine == o.endLine && preview.value.sourceKind == o.sourceKind)
    || (canonical.None? && preview.None? && IsVisible(o, visible))
  }

  predicate IsVisible(o: Span, visible: seq<Span>) {
    exists i :: 0 <= i < |visible| && ExtentOf(visible[i]) == ExtentOf(o)
  }

  /** Whenever a visible span lies in a span of the level, that span is visible too or already adopted. */
  ghost predicate VisibleRooted(visible: seq<Span>, canonical: set<Span>, levelFolds: set<Extent>) {
    forall q, f :: q in visible && f in levelFolds && Nested(ExtentOf(q), f) ==>
      (exists i :: 0 <= i < |visible| && ExtentOf(visible[i]) == f) || exists c :: c in canonical && ExtentOf(c) == f
  }

  ghost predicate FoundIn(found: Option<Span>, ss: set<Span>, line: nat) {
    if found.Some? then found.value in ss && found.value.startLine == line else forall s :: s in ss ==> s.startLine != line
  }

  lemma SameStartSameFold(folds: set<Extent>, f: Extent, g: Extent)
    requires Laminar(folds) && f in folds && g in folds && f.startLine == g.startLine
    ensures f == g
  {
    assert Compatible(f, g);
  }

  /** A span of the level that roots a kept opened span is kept as well. */
  lemma RootIsKept(o: Span, p: Span, c: Option<Span>, v: Option<Span>, visible: seq<Span>, canonical: set<Span>, preview: set<Span>,
                   folds: set<Extent>, levelFolds: set<Extent>)
    requires Laminar(folds) && levelFolds <= folds && ExtentOf(p) in levelFolds && Nested(ExtentOf(o), ExtentOf(p))
    requires DrawnFrom(canonical, folds) && DrawnFrom(preview, folds)
    requires FoundIn(c, canonical, p.startLine) && FoundIn(v, preview, p.startLine)
    requires VisibleRooted(visible, canonical, levelFolds) && IsVisible(o, visible)
    ensures StillOpen(p, c, v, visible)
  {
    var f := ExtentOf(p);
    if c.Some? { SameStartSameFold(folds, f, ExtentOf(c.value)); }
    else if v.Some? { SameStartSameFold(folds, f, ExtentOf(v.value)); }
    else {
      var i :| 0 <= i < |visible| && ExtentOf(visible[i]) == ExtentOf(o);
      assert visible[i] in visible;
      assert forall s :: s in canonical ==> ExtentOf(s) != f;
      assert IsVisible(p, visible);
    }
  }

  /** The opened spans an adoption keeps are among the old ones and still rooted in the level. */
  ghost predicate RootsKept(kept: seq<Span>, openSpans: seq<Span>, folds: set<Extent>, levelFolds: set<Extent>) {
    StartsIncrease(kept) && DrawnFrom(Elements(kept), folds) && AllRooted(kept, levelFolds) && Elements(kept) <= Elements(openSpans)
  }

  /** The loop of an adoption that forgets opened spans the analysis no longer reports. */
  method KeepMatching(l: LevelState, visible: seq<Span>, ghost folds: set<Extent>, ghost levelFolds: set<Extent>)
    returns (kept: seq<Span>)
    requires l.Indexed() && Laminar(folds) && levelFolds <= folds
    requires DrawnFrom(l.canonical.Spans(), levelFolds) && PreviewDrawn(l, levelFolds)
    requires DrawnFrom(Elements(l.openSpans), folds) && AllRooted(l.openSpans, levelFolds)
    requires VisibleRooted(visible, l.canonical.Spans(), levelFolds)
    ensures kept == Filter(l.openSpans, (o: Span) => Matches(l, visible, o))
    ensures RootsKept(kept, l.openSpans, folds, levelFolds)
  {
    var keep := (o: Span) => Matches(l, visible, o);
    kept := [];
    for i := 0 to |l.openSpans|
      invariant kept == Filter(l.openSpans[..i], keep)
    {
      FilterNext(l.openSpans, keep, i);
      var o := l.openSpans[i];
      kept := kept + if Matches(l, visible, o) then [o] else [];
    }
    assert l.openSpans[..|l.openSpans|] == l.openSpans;
    FilterStartsIncrease(l.openSpans, keep);
    forall o | o in kept ensures RootedIn(o, Elements(kept), levelFolds) {
      KeptIsRooted(l, visible, o, kept, folds, levelFolds);
    }
  }

  function PreviewStartingAt(l: LevelState, line: nat): (r: Option<Span>)
    requires l.Indexed()
    ensures FoundIn(r, Elements(SpansOf(l.viewport)), line)
  {
    if l.viewport.Some? then l.viewport.value.SpanStartingAt(line) else None
  }

  predicate Matches(l: LevelState, visible: seq<Span>, o: Span)
    requires l.Indexed()
  {
    StillOpen(o, l.canonical.SpanStartingAt(o.startLine), PreviewStartingAt(l, o.startLine), visible)
  }

  lemma KeptIsRooted(l: LevelState, visible: seq<Span>, o: Span, kept: seq<Span>, folds: set<Extent>, levelFolds: set<Extent>)
    requires l.Indexed() && Laminar(folds) && levelFolds <= folds
    requires DrawnFrom(l.canonical.Spans(), levelFolds) && DrawnFrom(Elements(SpansOf(l.viewport)), levelFolds)
    requires DrawnFrom(Elements(l.openSpans), folds) && AllRooted(l.openSpans, levelFolds)
    requires VisibleRooted(visible, l.canonical.Spans(), levelFolds)
    requires o in l.openSpans && Matches(l, visible, o)
    requires forall p :: p in l.openSpans && Matches(l, visible, p) ==> p in kept
    ensures RootedIn(o, Elements(kept), levelFolds)
  {
    if ExtentOf(o) !in levelFolds {
      assert RootedIn(o, Elements(l.openSpans), levelFolds);
      var p :| p in Elements(l.openSpans) && ExtentOf(p) in levelFolds && Nested(ExtentOf(o), ExtentOf(p));
      OnlyVisible(l, visible, o, levelFolds);
      RootIsKept(o, p, l.canonical.SpanStartingAt(p.startLine), PreviewStartingAt(l, p.startLine), visible,
                 l.canonical.Spans(), Elements(SpansOf(l.viewport)), folds, levelFolds);
      assert Matches(l, visible, p);
    }
  }

  lemma OnlyVisible(l: LevelState, visible: seq<Span>, o: Span, levelFolds: set<Extent>)
    requires l.Indexed()
    requires DrawnFrom(l.canonical.Spans(), levelFolds) && DrawnFrom(Elements(SpansOf(l.viewport)), levelFolds)
    requires Matches(l, visible, o) && ExtentOf(o) !in levelFolds
    ensures IsVisible(o, visible)
  {
    var c, v := l.canonical.SpanStartingAt(o.startLine), PreviewStartingAt(l, o.startLine);
    assert c.Some? ==> ExtentOf(c.value) in levelFolds;
    assert v.Some? ==> ExtentOf(v.value) in levelFolds;
  }

  /** The analysis still reports the fold of an opened span: in a batch, in the preview or in the viewport. */
  ghost predicate Reported(o: Span, canonical: set<Span>, preview: set<Span>, visible: seq<Span>) {
    exists s :: s in canonical + preview + Elements(visible) && ExtentOf(s) == ExtentOf(o)
  }

  /** Exactly the opened spans that are still reported are kept. */
  ghost predicate OnlyReported(kept: seq<Span>, openSpans: seq<Span>, canonical: set<Span>, preview: set<Span>, visible: seq<Span>) {
    forall o :: o in kept <==> o in openSpans && Reported(o, canonical, preview, visible)
  }

  /** The look-up by start line with its three cases finds exactly the opened spans that are still reported. */
  lemma MatchesIffReported(l: LevelState, visible: seq<Span>, o: Span, folds: set<Extent>, levelFolds: set<Extent>)
    requires l.Indexed() && Laminar(folds) && levelFolds <= folds && ExtentOf(o) in folds
    requires DrawnFrom(l.canonical.Spans(), levelFolds) && DrawnFrom(Elements(SpansOf(l.viewport)), levelFolds)
    ensures Matches(l, visible, o) <==> Reported(o, l.canonical.Spans(), Elements(SpansOf(l.viewport)), visible)
  {
    var c, v := l.canonical.SpanStartingAt(o.startLine), PreviewStartingAt(l, o.startLine);
    if c.Some? { SameStartSameFold(folds, ExtentOf(o), ExtentOf(c.value)); }
    if v.Some? { SameStartSameFold(folds, ExtentOf(o), ExtentOf(v.value)); }
    if IsVisible(o, visible) {
      var i :| 0 <= i < |visible| && ExtentOf(visible[i]) == ExtentOf(o);
      assert visible[i] in Elements(visible);
    }
  }

  // ----- explicit folds

  function Smallest(keys: set<nat>): (k: nat)
    requires keys != {}
    ensures k in keys && forall j :: j in keys ==> k <= j
  {
    SmallestExists(keys);
    var k :| k in keys && forall j :: j in keys ==> k <= j;
    k
  }

  lemma SmallestExists(keys: set<nat>)
    requires keys != {}
    ensures exists k :: k in keys && forall j :: j in keys ==> k <= j
  {
    var k := SmallestOf(keys);
  }

  lemma {:induction false} SmallestOf(keys: set<nat>) returns (m: nat)
    requires keys != {}
    ensures m in keys && forall j :: j in keys ==> m <= j
    decreases |keys|
  {
    m :| m in keys;
    var rest := keys - {m};
    assert keys == rest + {m};
    if rest != {} {
      var r := SmallestOf(rest);
      m := if r < m then r else m;
    }
  }

  /**
   * The folds kept so far: `cover` tells for every fold outside `keys` which kept fold it starts in,
   * and every fold in `keys` is still ahead.
   */
  ghost predicate RebuiltSoFar(out: seq<Span>, keys: set<nat>, closed: map<nat, Span>, cover: map<nat, nat>) {
    && keys <= closed.Keys && StrictlyApart(out) && Elements(out) <= closed.Values
    && (out != [] ==> forall k :: k in keys ==> out[|out| - 1].startLine < k)
    && (forall k :: k in closed.Keys - keys ==> k in cover && cover[k] < |out| && Holds(out[cover[k]], k))
  }

  /** rebuildEffectiveClosedFolds: walk the folds by start line and skip those inside the last one kept. */
  method OutermostFolds(closed: map<nat, Span>, ghost document: Document) returns (out: seq<Span>)
    requires document.WellFormed() && ClosedDrawnFrom(closed, document)
    ensures StrictlyApart(out) && Elements(out) <= closed.Values
    ensures Lines(Elements(out)) == Lines(closed.Values)
  {
    out := [];
    var keys, coveredUntil, haveCovered := closed.Keys, 0, false;
    ghost var cover: map<nat, nat> := map[];
    while keys != {}
      invariant RebuiltSoFar(out, keys, closed, cover)
      invariant haveCovered == (out != [])
      invariant haveCovered ==> coveredUntil == out[|out| - 1].endLine
      decreases |keys|
    {
      var k := Smallest(keys);
      var span := closed[k];
      RebuiltNext(out, keys, k, closed, cover, document);
      var skipped := haveCovered && span.startLine <= coveredUntil;
      out := if skipped then out else out + [span];
      coveredUntil, haveCovered := if skipped then coveredUntil else span.endLine, true;
      keys, cover := keys - {k}, cover[k := |out| - 1];
    }
    CoveredHides(closed, out, cover, document);
  }

  function WithFold(out: seq<Span>, span: Span): seq<Span> {
    if out != [] && span.startLine <= out[|out| - 1].endLine then out else out + [span]
  }

  lemma AppendApart(out: seq<Span>, s: Span)
    requires StrictlyApart(out) && Proper(s) && (out != [] ==> out[|out| - 1].startLine < s.startLine)
    ensures var next := WithFold(out, s);
      && StrictlyApart(next) && Elements(next) <= Elements(out) + {s} && out <= next
      && next != [] && Holds(next[|next| - 1], s.startLine) && next[|next| - 1].startLine <= s.startLine
  {
  }

  lemma RebuiltNext(out: seq<Span>, keys: set<nat>, k: nat, closed: map<nat, Span>, cover: map<nat, nat>, document: Document)
    requires RebuiltSoFar(out, keys, closed, cover) && document.WellFormed() && ClosedDrawnFrom(closed, document)
    requires k in keys && forall j :: j in keys ==> k <= j
    ensures closed[k].startLine == k
    ensures var next := WithFold(out, closed[k]); RebuiltSoFar(next, keys - {k}, closed, cover[k := |next| - 1])
  {
    var span := closed[k];
    assert span in closed.Values && ExtentOf(span) in document.folds && Proper(span);
    AppendApart(out, span);
  }

  lemma CoveredHides(closed: map<nat, Span>, out: seq<Span>, cover: map<nat, nat>, document: Document)
    requires document.WellFormed() && ClosedDrawnFrom(closed, document)
    requires RebuiltSoFar(out, {}, closed, cover)
    ensures Lines(Elements(out)) == Lines(closed.Values)
  {
    forall n | n in Lines(Elements(out)) ensures n in Lines(closed.Values) {
      var o :| o in Elements(out) && n in LinesOf(o);
    }
    forall n | n in Lines(closed.Values) ensures n in Lines(Elements(out)) {
      var s :| s in closed.Values && n in LinesOf(s);
      var k :| k in closed && closed[k] == s;
      assert k in closed.Keys - {};
      var o := out[cover[k]];
      assert o in Elements(out) && o in closed.Values;
      HolderCovers(document.folds, o, s);
      assert Hides(o, n) && n in LinesOf(o);
    }
  }

  lemma OtherExplicitFolds(l: LevelState, before: set<Span>, after: seq<Span>, closed: map<nat, Span>, document: Document)
    requires l.Layers(before).Ok(document.folds, document.levelFolds(l.level))
    requires StrictlyApart(after) && Elements(after) <= closed.Values && ClosedDrawnFrom(closed, document)
    ensures l.Layers(Elements(after)).Ok(document.folds, document.levelFolds(l.level))
  {
    FinalizedFamily(after);
    forall s | s in after ensures ExtentOf(s) in document.folds {
      assert s in closed.Values;
    }
  }

  // ----- the three transitions of a level

  predicate SameSpans(a: seq<Span>, b: seq<Span>) {
    |a| == |b| && forall i :: 0 <= i < |a| ==> SameFold(a[i], b[i])
  }

  /** The new projection replaces the current one only if it differs. */
  method Replace(current: Option<Projection>, next: Projection) returns (r: Option<Projection>, changed: bool)
    requires current.Some? ==> Final(current.value)
    requires Final(next)
    ensures r.Some? && Final(r.value) && r.value.spans == next.spans
    ensures changed <==> current.None? || current.value.spans != next.spans
  {
    changed := current.None? || !SameSpans(current.value.spans, next.spans);
    r := if changed then Some(next) else current;
    if !changed {
      forall i | 0 <= i < |next.spans| ensures current.value.spans[i] == next.spans[i] {
        assert next.spans[i] in next.spans && current.value.spans[i] in current.value.spans;
        assert SameFold(current.value.spans[i], next.spans[i]);
      }
    }
  }

  method Refreshed(l: LevelState, visible: seq<Span>, ghost explicitFolds: set<Span>, ghost document: Document)
    returns (r: LevelState, changed: bool)
    requires document.WellFormed() && VisibleDrawnFrom(visible, document)
    requires Core(l, document.folds, document.levelFolds(l.level))
    requires Family(explicitFolds) && DrawnFrom(explicitFolds, document.folds)
    ensures r == l.(viewport := r.viewport, descendants := r.descendants) && r.Indexed()
    ensures l.active ==> r.viewport.Some? && r.viewport.value.spans == PreviewSpans(visible, l.level, l.canonicalEndLine)
    ensures l.active ==> r.descendants.Some? && r.descendants.value.spans == DescendantSpans(visible, l.openSpans)
    ensures r.Layers(explicitFolds).Ok(document.folds, document.levelFolds(l.level))
    ensures SplitAt(r.canonical.Spans(), SpansOf(r.viewport), r.canonicalEndLine)
    ensures changed == (l.active && !(l.viewport.Some? && l.viewport.value.spans == r.viewport.value.spans
      && l.descendants.Some? && l.descendants.value.spans == r.descendants.value.spans))
  {
    if !l.active {
      r, changed := l.(descendants := None), false;
    } else {
      var preview := Build(Filter(visible, (s: Span) => PreviewsLevel(s, l.level, l.canonicalEndLine)));
      var viewport, viewportChanged := Replace(l.viewport, preview);
      var inside := Build(Filter(visible, (s: Span) => ShownInside(s, l.openSpans)));
      var descendants, descendantChanged := Replace(l.descendants, inside);
      r := l.(viewport := viewport, descendants := descendants);
      changed := viewportChanged || descendantChanged;
    }
    RefreshedOk(r, visible, explicitFolds, document);
  }

  ghost predicate StartsClosed(l: LevelState, line: nat) { exists s :: s in l.Layers({}).Active() && s.startLine == line }

  /** documentFoldLevelContains: the line starts a span that the level closes or has opened. */
  function Contains(l: LevelState, startLine: nat): (r: bool)
    requires l.Indexed()
    ensures r <==> l.active && (OpenAt(Elements(l.openSpans), startLine) || StartsClosed(l, startLine))
  {
    var canonical, preview := l.canonical.SpanStartingAt(startLine), PreviewStartingAt(l, startLine);
    assert (canonical.Some? || preview.Some?) && !OpenAt(Elements(l.openSpans), startLine) ==> StartsClosed(l, startLine) by {
      assert canonical.Some? && !OpenAt(Elements(l.openSpans), startLine) ==> canonical.value in l.Layers({}).Active();
      assert preview.Some? && !OpenAt(Elements(l.openSpans), startLine) ==> preview.value in l.Layers({}).Active();
    }
    l.active && (l.SpanStartingAt(startLine).Some? || canonical.Some? || preview.Some? || l.SpanOpen(startLine))
  }

  ghost predicate Opening(before: seq<Span>, after: seq<Span>, l: LevelState, startLine: nat) {
    exists s :: s in l.Layers({}).Active() && s.startLine == startLine && Elements(after) == Elements(before) + {s}
  }

  /** Of the opened spans exactly those in the lines of the closing one are gone, that one included. */
  ghost predicate Closing(before: seq<Span>, after: seq<Span>, startLine: nat) {
    exists o :: o in before && o.startLine == startLine &&
      forall q :: q in after <==> q in before && (q.startLine < o.startLine || o.endLine < q.endLine)
  }

  /** A toggle changes whether the span is opened: closed again it hides its lines, opened it hides nothing. */
  ghost predicate Flips(before: set<Span>, after: Layers, startLine: nat) {
    && (OpenAt(after.unfolded, startLine) <==> !OpenAt(before, startLine))
    && if OpenAt(before, startLine)
       then forall s :: s in after.base && s.startLine == startLine ==> s in after.Active() && forall n: nat :: Hides(s, n) ==> after.Hidden(n)
       else forall s :: s in after.Active() ==> s.startLine != startLine
  }

  lemma ToggleFlips(before: seq<Span>, l: LevelState, after: Layers, startLine: nat)
    requires if OpenAt(Elements(before), startLine) then Closing(before, l.openSpans, startLine) && StartsIncrease(before)
             else exists s: Span :: s.startLine == startLine && Elements(l.openSpans) == Elements(before) + {s}
    requires after.unfolded == Elements(l.openSpans)
    ensures Flips(Elements(before), after, startLine)
  {
    if OpenAt(Elements(before), startLine) {
      var o :| o in before && o.startLine == startLine &&
        forall q :: q in l.openSpans <==> q in before && (q.startLine < o.startLine || o.endLine < q.endLine);
      forall q | q in l.openSpans ensures q.startLine != startLine {
        if q.startLine == startLine { OneStart(before, q, o); }
      }
    }
  }

  lemma OneStart(spans: seq<Span>, q: Span, o: Span)
    requires StartsIncrease(spans) && q in spans && o in spans && q.startLine == o.startLine
    ensures q == o
  {
    var i :| 0 <= i < |spans| && spans[i] == q;
    var j :| 0 <= j < |spans| && spans[j] == o;
  }

  method CloseOpened(before: seq<Span>, found: nat, ghost folds: set<Extent>, ghost levelFolds: set<Extent>) returns (openSpans: seq<Span>)
    requires found < |before| && StartsIncrease(before) && Laminar(folds) && DrawnFrom(Elements(before), folds) && AllRooted(before, levelFolds)
    ensures StartsIncrease(openSpans) && DrawnFrom(Elements(openSpans), folds) && AllRooted(openSpans, levelFolds)
    ensures Closing(before, openSpans, before[found].startLine)
  {
    var closing := before[found];
    forall i | 0 <= i < |before| ensures before[i].startLine < before[i].endLine {
      assert before[i] in Elements(before) && ExtentOf(before[i]) in folds;
    }
    openSpans := CloseInside(before, closing);
    RootedAfterClosing(before, closing, folds, levelFolds);
    OpenAfterClosingMembers(before, closing);
  }

  /** The opened spans after a toggle of a span the level contains. */
  method Toggled(l: LevelState, startLine: nat, ghost folds: set<Extent>, ghost levelFolds: set<Extent>) returns (openSpans: seq<Span>)
    requires l.Indexed() && l.Layers({}).Ok(folds, levelFolds)
    requires OpenAt(Elements(l.openSpans), startLine) || StartsClosed(l, startLine)
    ensures StartsIncrease(openSpans) && DrawnFrom(Elements(openSpans), folds) && AllRooted(openSpans, levelFolds)
    ensures if OpenAt(Elements(l.openSpans), startLine) then Closing(l.openSpans, openSpans, startLine)
            else Opening(l.openSpans, openSpans, l, startLine)
  {
    var found := PartitionPoint(l.openSpans, (o: Span) => o.startLine < startLine, 0, |l.openSpans|);
    var open := l.SpanOpen(startLine);
    if found < |l.openSpans| && l.openSpans[found].startLine == startLine {
      assert l.openSpans[found] in Elements(l.openSpans);
      openSpans := CloseOpened(l.openSpans, found, folds, levelFolds);
    } else {
      assert !open;
      var span := l.SpanStartingAt(startLine);
      assert span.Some?;
      RootedAfterOpening(l, span.value, found, folds, levelFolds);
      openSpans := l.openSpans[..found] + [span.value] + l.openSpans[found..];
    }
  }

  // ----- adopting a batch

  /** Adoption for another level forgets the canonical and opened spans of the previous one. */
  function Restarted(l: LevelState, newLevel: nat): LevelState {
    if !l.active || l.level != newLevel then
      l.(active := true, level := newLevel, canonicalEndLine := 0, canonical := NO_BATCHES, openSpans := [])
    else l
  }

  /** The preview may be left over from another level, but then nothing is open. */
  ghost predicate PreviewDrawn(l: LevelState, levelFolds: set<Extent>) {
    l.openSpans == [] || DrawnFrom(Elements(SpansOf(l.viewport)), levelFolds)
  }

  /** A batch that will be added holds spans of the level, behind all adopted ones and before the new canonical end. */
  ghost predicate Adoptable(l: LevelState, canonicalEndLine: nat, projection: Option<Projection>, levelFolds: set<Extent>) {
    canonicalEndLine > l.canonicalEndLine && projection.Some? ==>
      && projection.value.Valid() && FollowsAll(projection.value, l.canonical)
      && DrawnFrom(Elements(projection.value.spans), levelFolds)
      && forall s :: s in projection.value.spans ==> s.startLine < canonicalEndLine
  }

  lemma RestartedCore(l: LevelState, newLevel: nat, explicitFolds: set<Span>, document: Document)
    requires document.WellFormed() && l.Indexed()
    requires l.Layers(explicitFolds).Ok(document.folds, document.levelFolds(l.level))
    requires SplitAt(l.canonical.Spans(), SpansOf(l.viewport), l.canonicalEndLine)
    ensures Core(Restarted(l, newLevel), document.folds, document.levelFolds(newLevel))
    ensures PreviewDrawn(Restarted(l, newLevel), document.levelFolds(newLevel))
  {
    EmptyIndex(NO_BATCHES);
    forall o | o in l.openSpans ensures RootedIn(o, Elements(l.openSpans), document.levelFolds(l.level)) {
      assert o in l.Layers(explicitFolds).unfolded;
    }
  }

  method Advanced(l: LevelState, canonicalEndLine: nat, projection: Option<Projection>, ghost folds: set<Extent>, ghost levelFolds: set<Extent>)
    returns (r: LevelState)
    requires l.active && Core(l, folds, levelFolds) && Adoptable(l, canonicalEndLine, projection, levelFolds)
    ensures r == l.(canonicalEndLine := r.canonicalEndLine, canonical := r.canonical) && Core(r, folds, levelFolds)
    ensures r.canonicalEndLine == if canonicalEndLine > l.canonicalEndLine then canonicalEndLine else l.canonicalEndLine
    ensures r.canonical.Spans() == l.canonical.Spans() +
      if canonicalEndLine > l.canonicalEndLine then Elements(SpansOf(projection)) else {}
  {
    r := l;
    if canonicalEndLine > l.canonicalEndLine {
      r := r.(canonicalEndLine := canonicalEndLine);
      if projection.Some? && projection.value.spans != [] {
        PushedValid(l.canonical, projection.value);
        r := r.(canonical := Pushed(l.canonical, projection.value));
      }
    }
  }

  function RemainingPreview(preview: seq<Span>, from: nat): seq<Span> {
    Finalized(Filter(preview, (s: Span) => s.startLine >= from))
  }

  /** What an adoption leaves of the preview before it looks for opened spans. */
  function PreviewLeft(preview: seq<Span>, canonicalEndLine: nat, complete: bool): seq<Span> {
    if complete then [] else RemainingPreview(preview, canonicalEndLine)
  }

  /** Those are the spans that start behind the batch, none if it was the last. */
  lemma PreviewLeftExact(preview: seq<Span>, canonicalEndLine: nat, complete: bool)
    requires StrictlyApart(preview) && forall s :: s in preview ==> !s.open
    ensures Elements(PreviewLeft(preview, canonicalEndLine, complete)) == set s | s in preview && !complete && canonicalEndLine <= s.startLine
  {
    var left := Filter(preview, (s: Span) => s.startLine >= canonicalEndLine);
    FilterApart(preview, (s: Span) => s.startLine >= canonicalEndLine);
    forall i | 0 <= i < |left| ensures !left[i].open { assert left[i] in left; }
    FinalizedApartStays(left);
  }

  lemma {:induction false} FilterApart(spans: seq<Span>, keep: Span -> bool)
    requires StrictlyApart(spans)
    ensures StrictlyApart(Filter(spans, keep))
  {
    if spans != [] {
      var n := |spans| - 1;
      FilterApart(spans[..n], keep);
      var front := Filter(spans[..n], keep);
      forall i | 0 <= i < |front| ensures front[i].endLine < spans[n].startLine {
        assert front[i] in spans[..n];
      }
    }
  }

  lemma RemainingDrawn(preview: seq<Span>, from: nat, levelFolds: set<Extent>)
    requires DrawnFrom(Elements(preview), levelFolds)
    ensures DrawnFrom(Elements(RemainingPreview(preview, from)), levelFolds)
  {
    var input := Filter(preview, (s: Span) => s.startLine >= from);
    FinalizedApart(input);
    forall v | v in RemainingPreview(preview, from) ensures ExtentOf(v) in levelFolds {
      var s :| s in input && Proper(s) && v == Closed(s);
      assert s in Elements(preview);
    }
  }

  /** An adoption up to the final refresh. */
  method AfterAdoption(l: LevelState, visible: seq<Span>, canonicalEndLine: nat, complete: bool, projection: Option<Projection>,
                       ghost folds: set<Extent>, ghost levelFolds: set<Extent>) returns (r: LevelState)
    requires Laminar(folds) && levelFolds <= folds
    requires l.active && Core(l, folds, levelFolds) && PreviewDrawn(l, levelFolds)
    requires Adoptable(l, canonicalEndLine, projection, levelFolds) && VisibleRooted(visible, l.canonical.Spans(), levelFolds)
    ensures Core(r, folds, levelFolds) && r.active && r.level == l.level
    ensures r.canonicalEndLine == if canonicalEndLine > l.canonicalEndLine then canonicalEndLine else l.canonicalEndLine
    ensures r.canonical.Spans() == l.canonical.Spans() +
      if canonicalEndLine > l.canonicalEndLine then Elements(SpansOf(projection)) else {}
    ensures OnlyReported(r.openSpans, l.openSpans, r.canonical.Spans(), Elements(PreviewLeft(SpansOf(l.viewport), canonicalEndLine, complete)), visible)
    ensures l.openSpans == [] ==> r.openSpans == []
  {
    r := Advanced(l, canonicalEndLine, projection, folds, levelFolds);
    StillRootedVisible(visible, l.canonical.Spans(), r.canonical.Spans(), levelFolds);
    if complete {
      r := r.(viewport := None);
    } else if r.viewport.Some? {
      var preview := r.viewport.value.spans;
      var remaining := Build(Filter(preview, (s: Span) => s.startLine >= canonicalEndLine));
      if r.openSpans != [] { RemainingDrawn(preview, canonicalEndLine, levelFolds); }
      r := r.(viewport := Some(remaining));
    }
    assert SpansOf(r.viewport) == PreviewLeft(SpansOf(l.viewport), canonicalEndLine, complete);
    var openSpans := KeepMatching(r, visible, folds, levelFolds);
    forall o | o in l.openSpans ensures o in openSpans <==> Reported(o, r.canonical.Spans(), Elements(SpansOf(r.viewport)), visible) {
      MatchesIffReported(r, visible, o, folds, levelFolds);
    }
    r := r.(openSpans := openSpans);
  }

  /**
   * An adoption said without its steps: for the active level the batch is added to what was adopted, unless it is
   * stale, and exactly the opened spans still reported stay; any other level starts with the batch alone.
   */
  ghost predicate Adopts(before: LevelState, after: LevelState, visible: seq<Span>, newLevel: nat, canonicalEndLine: nat, complete: bool,
                         projection: Option<Projection>) {
    && after.active && after.level == newLevel
    && if before.active && before.level == newLevel then
         && after.canonicalEndLine == Max(canonicalEndLine, before.canonicalEndLine)
         && after.canonical.Spans() == before.canonical.Spans() +
              (if canonicalEndLine > before.canonicalEndLine then Elements(SpansOf(projection)) else {})
         && OnlyReported(after.openSpans, before.openSpans, after.canonical.Spans(),
              (set s | s in SpansOf(before.viewport) && !complete && canonicalEndLine <= s.startLine), visible)
       else
         && after.canonicalEndLine == canonicalEndLine && after.openSpans == []
         && after.canonical.Spans() == if canonicalEndLine > 0 then Elements(SpansOf(projection)) else {}
  }

  method AdoptedLevel(l: LevelState, visible: seq<Span>, newLevel: nat, canonicalEndLine: nat, complete: bool, projection: Option<Projection>,
                 ghost explicitFolds: set<Span>, ghost document: Document) returns (r: LevelState)
    requires document.WellFormed() && l.Indexed()
    requires l.Layers(explicitFolds).Ok(document.folds, document.levelFolds(l.level))
    requires SplitAt(l.canonical.Spans(), SpansOf(l.viewport), l.canonicalEndLine)
    requires Adoptable(Restarted(l, newLevel), canonicalEndLine, projection, document.levelFolds(newLevel))
    requires VisibleRooted(visible, Restarted(l, newLevel).canonical.Spans(), document.levelFolds(newLevel))
    ensures Core(r, document.folds, document.levelFolds(newLevel))
    ensures Adopts(l, r, visible, newLevel, canonicalEndLine, complete, projection)
  {
    RestartedCore(l, newLevel, explicitFolds, document);
    EmptyIndex(NO_BATCHES);
    r := AfterAdoption(Restarted(l, newLevel), visible, canonicalEndLine, complete, projection, document.folds, document.levelFolds(newLevel));
    PreviewLeftExact(SpansOf(l.viewport), canonicalEndLine, complete);
  }

  lemma StillRootedVisible(visible: seq<Span>, before: set<Span>, after: set<Span>, levelFolds: set<Extent>)
    requires VisibleRooted(visible, before, levelFolds) && before <= after
    ensures VisibleRooted(visible, after, levelFolds)
  {
    forall q, f | q in visible && f in levelFolds && Nested(ExtentOf(q), f)
      ensures (exists i :: 0 <= i < |visible| && ExtentOf(visible[i]) == f) || exists c :: c in after && ExtentOf(c) == f
    {
      if !(exists i :: 0 <= i < |visible| && ExtentOf(visible[i]) == f) {
        var c :| c in before && ExtentOf(c) == f;
      }
    }
  }
}
