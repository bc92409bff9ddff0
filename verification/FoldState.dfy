/** The folding state of one document: its layers, and the maps between document and visible lines. */
module FoldState {
  import opened Basics
  import opened FoldSpans
  import opened FoldProjection
  import opened FoldCanonical
  import opened FoldLayers
  import opened FoldLevel
  import opened FoldTransitions

  class FoldingDerivedState {
    ghost const document: Document
    var visible: seq<Span>
    var closedFolds: map<nat, Span>
    var effectiveFolds: seq<Span>
    var level: LevelState

    ghost function View(): Layers reads this { level.Layers(Elements(effectiveFolds)) }

    ghost function LevelFolds(): set<Extent> reads this { document.levelFolds(level.level) }

    ghost predicate Valid()
      reads this
    {
      && document.WellFormed()
      && VisibleDrawnFrom(visible, document)
      && ClosedDrawnFrom(closedFolds, document)
      && StrictlyApart(effectiveFolds)
      && level.Indexed()
      && SplitAt(level.canonical.Spans(), SpansOf(level.viewport), level.canonicalEndLine)
      && View().Ok(document.folds, LevelFolds())
    }

    /** At a visible line: exactly the number of hidden lines before it, none counted twice. */
    method EffectiveHiddenBefore(documentLine: nat) returns (hidden: nat)
      requires Valid()
      ensures !View().Hidden(documentLine) ==> hidden == |View().HiddenBefore(documentLine)|
    {
      ExplicitFoldsDoNotOpen(level, Elements(effectiveFolds), document.folds, LevelFolds());
      hidden := level.HiddenBefore(documentLine, document.folds, LevelFolds());
      var gain := level.FoldsAdd(effectiveFolds, documentLine, document.folds, LevelFolds());
      hidden := hidden + gain;
      EffectiveCount(level, effectiveFolds, EndedBefore(effectiveFolds, documentLine), documentLine, document.folds, LevelFolds());
    }

    /** The outermost closed span holding a line. */
    method EffectiveClosedFoldContaining(documentLine: nat) returns (r: Option<Span>)
      requires Valid()
      ensures r.Some? ==> Outermost(View(), r.value) && Holds(r.value, documentLine)
      ensures r.None? ==> forall s :: s in View().Active() + View().explicitFolds ==> !Holds(s, documentLine)
    {
      ExplicitFoldsDoNotOpen(level, Elements(effectiveFolds), document.folds, LevelFolds());
      var projection := level.SpanContaining(documentLine);
      var after := PartitionPoint(effectiveFolds, (s: Span) => s.startLine <= documentLine, 0, |effectiveFolds|);
      var explicitSpan := if after > 0 && documentLine <= effectiveFolds[after - 1].endLine then Some(effectiveFolds[after - 1]) else None;
      ExplicitHolder(effectiveFolds, after, documentLine);
      r := Outer(projection, explicitSpan);
      OuterHolder(View(), document.folds, LevelFolds(), documentLine, projection, explicitSpan);
    }

    /** The visible row of a document line. */
    method VisibleLineForDocumentLine(documentLine: nat) returns (row: nat)
      requires Valid()
      ensures row == |VisibleUpTo(View(), documentLine)| - 1
    {
      var closed := EffectiveClosedFoldContaining(documentLine);
      if closed.Some? && documentLine > closed.value.startLine {
        var head := closed.value.startLine;
        var hidden := EffectiveHiddenBefore(head);
        HiddenBeforeBounded(View(), head);
        RowOfVisibleLine(View(), head);
        RowOfHeldLine(View(), closed.value, documentLine);
        row := head - hidden;
      } else {
        assert !View().Hidden(documentLine);
        var hidden := EffectiveHiddenBefore(documentLine);
        HiddenBeforeBounded(View(), documentLine);
        RowOfVisibleLine(View(), documentLine);
        row := documentLine - Min(documentLine, hidden);
      }
    }

    /** The number of visible rows of a document that holds all its closed spans. */
    method FoldedLineCount(totalLines: nat) returns (rows: nat)
      requires Valid()
      ensures totalLines == 0 ==> rows == 1
      ensures 1 <= rows <= Max(1, totalLines)
      ensures totalLines > 0 && (forall s :: s in View().Active() + View().explicitFolds ==> s.endLine < totalLines)
        ==> rows == |VisibleUpTo(View(), totalLines - 1)|
    {
      if totalLines == 0 { return 1; }
      var hidden := EffectiveHiddenBefore(totalLines);
      rows := totalLines - Min(totalLines - 1, hidden);
      if forall s :: s in View().Active() + View().explicitFolds ==> s.endLine < totalLines {
        RowCount(View(), totalLines);
      }
    }

    method HasEffectiveClosedFolds() returns (r: bool)
      requires Valid()
      ensures r <==> View().Active() + View().explicitFolds != {}
    {
      ghost var folds, levelFolds := document.folds, LevelFolds();
      if effectiveFolds != [] {
        assert effectiveFolds[0] in View().explicitFolds;
        return true;
      }
      assert View().explicitFolds == {};
      if !level.active { return false; }
      ExplicitFoldsDoNotOpen(level, Elements(effectiveFolds), folds, levelFolds);
      var hidden := level.HiddenTotal(folds, levelFolds);
      r := hidden != 0;
    }

    /** The document line shown in a visible row; rows past the end give the last line. */
    method DocumentLineForVisibleLine(visibleLine: nat, totalLines: nat) returns (line: nat)
      requires Valid()
      ensures totalLines == 0 ==> line == 0
      ensures totalLines > 0 && visibleLine < |VisibleUpTo(View(), totalLines - 1)| ==>
        line < totalLines && !View().Hidden(line) && |VisibleUpTo(View(), line)| == visibleLine + 1
      ensures totalLines > 0 && visibleLine >= |VisibleUpTo(View(), totalLines - 1)| ==> line == totalLines - 1
    {
      if totalLines == 0 { return 0; }
      ghost var l := View();
      var folded := HasEffectiveClosedFolds();
      if !folded {
        line := Min(visibleLine, totalLines - 1);
        NothingFolded(l, line);
        NothingFolded(l, totalLines - 1);
        return;
      }
      var left, right := 0, totalLines;
      while left < right
        invariant 0 <= left <= right <= totalLines
        invariant left > 0 ==> |VisibleUpTo(l, left - 1)| <= visibleLine
        invariant right < totalLines ==> visibleLine < |VisibleUpTo(l, right)|
      {
        var middle := left + (right - left) / 2;
        var row := VisibleLineForDocumentLine(middle);
        if row < visibleLine { left := middle + 1; } else { right := middle; }
      }
      line := if left < totalLines then left else totalLines - 1;
      FirstRow(l);
      if left > 0 && left < totalLines { RowStep(l, left - 1); }
      if left < totalLines { RowsIncrease(l, left, totalLines - 1); }
    }

    /** Every visible row comes back: row to document line to row. */
    method RowThereAndBack(visibleLine: nat, totalLines: nat) returns (row: nat)
      requires Valid()
      ensures totalLines > 0 && visibleLine < |VisibleUpTo(View(), totalLines - 1)| ==> row == visibleLine
    {
      var line := DocumentLineForVisibleLine(visibleLine, totalLines);
      row := VisibleLineForDocumentLine(line);
    }

    /** A document line comes back as itself if visible, else as the head of the outermost closed span holding it. */
    method LineThereAndBack(documentLine: nat, totalLines: nat) returns (line: nat)
      requires Valid()
      requires documentLine < totalLines
      ensures !View().Hidden(documentLine) ==> line == documentLine
      ensures forall s :: Outermost(View(), s) && Holds(s, documentLine) ==> line == s.startLine
      ensures View().Hidden(documentLine) ==> exists s :: Outermost(View(), s) && Hides(s, documentLine)
    {
      var row := VisibleLineForDocumentLine(documentLine);
      ghost var l := View();
      FirstRow(l);
      RowsIncrease(l, 0, documentLine);
      RowsIncrease(l, documentLine, totalLines - 1);
      line := DocumentLineForVisibleLine(row, totalLines);
      SameRowSameLine(l, line, documentLine);
      var held := EffectiveClosedFoldContaining(documentLine);
      if s :| s in l.Active() + l.explicitFolds && Hides(s, documentLine) {
        assert Holds(s, documentLine);
        assert held.Some? && Outermost(l, held.value) && held.value.startLine != documentLine;
        assert Hides(held.value, documentLine);
      }
    }

    // ----- changing the state

    constructor (ghost document: Document)
      requires document.WellFormed()
      ensures Valid() && this.document == document
      ensures visible == [] && closedFolds == map[] && effectiveFolds == [] && !level.active
    {
      this.document := document;
      visible, closedFolds, effectiveFolds := [], map[], [];
      level := INACTIVE;
      InactiveLevel(document, {});
    }

    /** The state between a change of the level and the refresh that follows it. */
    ghost predicate Settled()
      reads this
    {
      && document.WellFormed() && VisibleDrawnFrom(visible, document) && ClosedDrawnFrom(closedFolds, document)
      && StrictlyApart(effectiveFolds) && DrawnFrom(Elements(effectiveFolds), document.folds)
      && Core(level, document.folds, LevelFolds())
    }

    method RefreshVisibleFoldOpenStates()
      requires Valid()
      modifies this`visible
      ensures Valid()
      ensures |visible| == |old(visible)|
      ensures forall i :: 0 <= i < |visible| ==>
        visible[i] == old(visible)[i].(open := visible[i].open) &&
        (visible[i].open <==> visible[i].startLine !in closedFolds && forall s :: s in View().Active() ==> s.startLine != visible[i].startLine)
    {
      ghost var before := visible;
      var i := 0;
      while i < |visible|
        invariant 0 <= i <= |visible| == |before|
        invariant forall j :: i <= j < |visible| ==> visible[j] == before[j]
        invariant forall j :: 0 <= j < i ==>
          visible[j] == before[j].(open := visible[j].open) &&
          (visible[j].open <==> visible[j].startLine !in closedFolds && forall s :: s in View().Active() ==> s.startLine != visible[j].startLine)
      {
        var start := visible[i].startLine;
        var closedByLevel := level.active && level.SpanStartingAt(start).Some?;
        assert View().Active() == level.Layers({}).Active();
        visible := visible[i := visible[i].(open := start !in closedFolds && !closedByLevel)];
        i := i + 1;
      }
    }

    method Refresh() returns (changed: bool)
      requires Settled()
      modifies this`level, this`visible
      ensures Valid()
      ensures level == old(level).(viewport := level.viewport, descendants := level.descendants)
      ensures level.active ==> SpansOf(level.viewport) == PreviewSpans(old(visible), level.level, level.canonicalEndLine)
      ensures level.active ==> SpansOf(level.descendants) == DescendantSpans(old(visible), level.openSpans)
      ensures changed == (level.active && !(old(level).viewport.Some? && SpansOf(old(level).viewport) == SpansOf(level.viewport)
        && old(level).descendants.Some? && SpansOf(old(level).descendants) == SpansOf(level.descendants)))
    {
      FinalizedFamily(effectiveFolds);
      level, changed := Refreshed(level, visible, Elements(effectiveFolds), document);
      RefreshVisibleFoldOpenStates();
    }

    /** The viewport analysis reports its spans. */
    method ShowSpans(spans: seq<Span>) returns (changed: bool)
      requires Valid()
      requires VisibleDrawnFrom(spans, document)
      modifies this`visible, this`level
      ensures Valid()
      ensures level == old(level).(viewport := level.viewport, descendants := level.descendants)
      ensures level.active ==> SpansOf(level.viewport) == PreviewSpans(spans, level.level, level.canonicalEndLine)
      ensures level.active ==> SpansOf(level.descendants) == DescendantSpans(spans, level.openSpans)
    {
      visible := spans;
      changed := Refresh();
    }

    method PutClosedFold(span: Span)
      requires Valid() && ExtentOf(span) in document.folds
      modifies this`closedFolds
      ensures Valid() && closedFolds == old(closedFolds)[span.startLine := span]
    {
      closedFolds := closedFolds[span.startLine := span];
    }

    method EraseClosedFold(startLine: nat)
      requires Valid()
      modifies this`closedFolds
      ensures Valid() && closedFolds == old(closedFolds) - {startLine}
    {
      closedFolds := closedFolds - {startLine};
    }

    /** The outermost explicit folds hide exactly what all explicit folds hide. */
    method RebuildEffectiveClosedFolds()
      requires Valid()
      modifies this`effectiveFolds
      ensures Valid()
      ensures StrictlyApart(effectiveFolds) && Elements(effectiveFolds) <= closedFolds.Values
      ensures Lines(Elements(effectiveFolds)) == Lines(closedFolds.Values)
    {
      ghost var before := level.Layers(Elements(effectiveFolds));
      effectiveFolds := OutermostFolds(closedFolds, document);
      OtherExplicitFolds(level, before.explicitFolds, effectiveFolds, closedFolds, document);
    }

    method ClearDocumentFoldLevel()
      requires Valid()
      modifies this`level, this`visible
      ensures Valid() && level == INACTIVE && View().Active() == {}
    {
      FinalizedFamily(effectiveFolds);
      level := INACTIVE;
      InactiveLevel(document, Elements(effectiveFolds));
      RefreshVisibleFoldOpenStates();
    }

    method ClearClosedFolds()
      requires Valid()
      modifies this
      ensures Valid() && closedFolds == map[] && effectiveFolds == [] && level == INACTIVE
      ensures forall line: nat :: !View().Hidden(line)
    {
      ExplicitFoldsDoNotOpen(level, Elements(effectiveFolds), document.folds, LevelFolds());
      closedFolds, effectiveFolds := map[], [];
      assert Elements(effectiveFolds) == {};
      ClearDocumentFoldLevel();
    }

    /** A new level starts with its viewport preview only: nothing canonical, nothing opened. */
    method BeginDocumentFoldLevel(newLevel: nat, preview: Option<Projection>)
      requires Valid()
      requires preview.Some? ==> Final(preview.value)
      modifies this`level, this`visible
      ensures Valid()
      ensures level.active && level.level == newLevel && level.canonicalEndLine == 0
      ensures level.canonical.Spans() == {} && level.openSpans == []
      ensures SpansOf(level.viewport) == PreviewSpans(old(visible), newLevel, 0)
    {
      EmptyIndex(NO_BATCHES);
      level := LevelState(true, newLevel, 0, NO_BATCHES, preview, level.descendants, []);
      var _ := Refresh();
    }

    /**
     * Toggling a span of the level closes it, with every opened span inside it, or opens it.
     * Anything else is refused and changes nothing.
     */
    method ToggleDocumentFoldLevelSpan(startLine: nat) returns (toggled: bool)
      requires Valid()
      modifies this`level, this`visible
      ensures Valid()
      ensures toggled <==> old(level.active && (OpenAt(Elements(level.openSpans), startLine) || StartsClosed(level, startLine)))
      ensures !toggled ==> level == old(level) && visible == old(visible)
      ensures toggled ==> level == old(level).(openSpans := level.openSpans, viewport := level.viewport, descendants := level.descendants)
      ensures toggled ==> if old(OpenAt(Elements(level.openSpans), startLine))
        then Closing(old(level.openSpans), level.openSpans, startLine)
        else Opening(old(level.openSpans), level.openSpans, old(level), startLine)
      ensures toggled ==> Flips(old(Elements(level.openSpans)), View(), startLine)
      ensures toggled ==> SpansOf(level.viewport) == PreviewSpans(old(visible), level.level, level.canonicalEndLine)
      ensures toggled ==> SpansOf(level.descendants) == DescendantSpans(old(visible), level.openSpans)
    {
      toggled := Contains(level, startLine);
      if toggled {
        ExplicitFoldsDoNotOpen(level, Elements(effectiveFolds), document.folds, LevelFolds());
        var openSpans := Toggled(level, startLine, document.folds, LevelFolds());
        level := level.(openSpans := openSpans);
        var _ := Refresh();
        ToggleFlips(old(level.openSpans), level, View(), startLine);
      }
    }

    /**
     * Adopting a canonical batch for a level: a stale batch is ignored, a new one is added behind the
     * earlier ones, the preview shrinks to what is not yet canonical, and exactly the opened spans that
     * are no longer reported are forgotten.
     */
    method AdoptDocumentFoldLevelProjection(newLevel: nat, canonicalEndLine: nat, complete: bool, projection: Option<Projection>)
      requires Valid()
      requires Adoptable(Restarted(level, newLevel), canonicalEndLine, projection, document.levelFolds(newLevel))
      requires VisibleRooted(visible, Restarted(level, newLevel).canonical.Spans(), document.levelFolds(newLevel))
      modifies this`level, this`visible
      ensures Valid()
      ensures Adopts(old(level), level, old(visible), newLevel, canonicalEndLine, complete, projection)
      ensures SpansOf(level.viewport) == PreviewSpans(old(visible), newLevel, level.canonicalEndLine)
      ensures SpansOf(level.descendants) == DescendantSpans(old(visible), level.openSpans)
    {
      level := AdoptedLevel(level, visible, newLevel, canonicalEndLine, complete, projection, Elements(effectiveFolds), document);
      var _ := Refresh();
    }
  }
}
