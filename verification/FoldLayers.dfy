/** What the overlapping fold layers of one document hide together, stated on sets of spans. */
module FoldLayers {
  import opened Basics
  import opened FoldSpans
  import opened FoldCanonical

  /** The folds of one version of a document, and which of them make up each fold level. */
  datatype Document = Document(folds: set<Extent>, levelFolds: nat -> set<Extent>) {
    ghost predicate WellFormed() {
      && Laminar(folds)
      && (forall f :: f in folds ==> f.endLine < SIZE_MAX)
      && (forall level :: levelFolds(level) <= folds)
      && (forall level, f, g :: f in levelFolds(level) && g in levelFolds(level) ==> f == g || Apart(f, g))
    }
  }

  ghost predicate DrawnFrom(ss: set<Span>, folds: set<Extent>) {
    forall s :: s in ss ==> ExtentOf(s) in folds
  }

  ghost predicate OpenAt(unfolded: set<Span>, line: nat) { exists o :: o in unfolded && o.startLine == line }

  /** An open span is a span of the level, or lies in an open span of the level. */
  ghost predicate RootedIn(o: Span, unfolded: set<Span>, level: set<Extent>) {
    ExtentOf(o) in level || exists p :: p in unfolded && ExtentOf(p) in level && Nested(ExtentOf(o), ExtentOf(p))
  }

  ghost predicate Under(s: Span, unfolded: set<Span>) {
    exists o :: o in unfolded && Nested(ExtentOf(s), ExtentOf(o))
  }

  /** base: canonical and preview spans of the level; descendants: spans shown inside opened ones. */
  datatype Layers = Layers(base: set<Span>, descendants: set<Span>, unfolded: set<Span>, explicitFolds: set<Span>) {

    ghost predicate Ok(folds: set<Extent>, level: set<Extent>) {
      && Laminar(folds) && level <= folds
      && (forall f, g :: f in level && g in level ==> f == g || Apart(f, g))
      && Family(base) && DrawnFrom(base, level)
      && Family(descendants) && DrawnFrom(descendants, folds)
      && (forall d :: d in descendants ==> Under(d, unfolded) && !OpenAt(unfolded, d.startLine))
      && DrawnFrom(unfolded, folds) && (forall o :: o in unfolded ==> RootedIn(o, unfolded, level))
      && Family(explicitFolds) && DrawnFrom(explicitFolds, folds)
    }

    /** The projection spans that are closed. */
    ghost function Active(): set<Span> {
      set s | s in base + descendants && !OpenAt(unfolded, s.startLine)
    }

    /** A line is hidden if some closed span has it below its head. */
    ghost predicate Hidden(line: nat) { exists s :: s in Active() + explicitFolds && Hides(s, line) }

    ghost function HiddenBefore(line: nat): set<nat> { set l: nat | l < line && Hidden(l) }
  }

  lemma RootOf(l: Layers, folds: set<Extent>, level: set<Extent>, d: Span) returns (p: Span)
    requires l.Ok(folds, level) && d in l.descendants
    ensures p in l.unfolded && ExtentOf(p) in level && Nested(ExtentOf(d), ExtentOf(p))
  {
    var o :| o in l.unfolded && Nested(ExtentOf(d), ExtentOf(o));
    if ExtentOf(o) in level { p := o; }
    else { p :| p in l.unfolded && ExtentOf(p) in level && Nested(ExtentOf(o), ExtentOf(p)); }
  }

  ghost function OpenBase(l: Layers): set<Span> { set b | b in l.base && OpenAt(l.unfolded, b.startLine) }

  /** A closed span of the level keeps apart from everything shown inside opened spans. */
  lemma ClosedBaseApart(l: Layers, folds: set<Extent>, level: set<Extent>)
    requires l.Ok(folds, level)
    ensures AllApart(l.base - OpenBase(l), l.descendants)
    ensures l.Active() == (l.base - OpenBase(l)) + l.descendants
  {
    forall b, d | b in l.base - OpenBase(l) && d in l.descendants ensures Apart(ExtentOf(b), ExtentOf(d)) {
      var p := RootOf(l, folds, level, d);
      assert ExtentOf(b) == ExtentOf(p) || Apart(ExtentOf(b), ExtentOf(p));
    }
  }

  lemma ActiveFamily(l: Layers, folds: set<Extent>, level: set<Extent>)
    requires l.Ok(folds, level)
    ensures Family(l.Active())
    ensures DrawnFrom(l.Active(), folds)
  {
    ClosedBaseApart(l, folds, level);
  }

  lemma PickMinus(a: set<Span>, b: set<Span>, lo: nat, hi: int)
    ensures Pick(a - b, lo, hi) == Pick(a, lo, hi) - Pick(b, lo, hi)
    ensures Pick(a + b, lo, hi) == Pick(a, lo, hi) + Pick(b, lo, hi)
  {
  }

  /** The layers' own counts, with the opened spans of the level taken out, add up to the closed spans' lines. */
  lemma ActiveCount(l: Layers, folds: set<Extent>, level: set<Extent>, lo: nat, hi: int)
    requires l.Ok(folds, level)
    ensures |Lines(Pick(l.base, lo, hi))| - |Lines(Pick(OpenBase(l), lo, hi))| + |Lines(Pick(l.descendants, lo, hi))|
         == |Lines(Pick(l.Active(), lo, hi))|
  {
    ClosedBaseApart(l, folds, level);
    PickMinus(l.base, OpenBase(l), lo, hi);
    FamilyMinus(Pick(l.base, lo, hi), Pick(OpenBase(l), lo, hi));
    PickMinus(l.base - OpenBase(l), l.descendants, lo, hi);
    ApartFamiliesAdd(Pick(l.base - OpenBase(l), lo, hi), Pick(l.descendants, lo, hi));
  }

  /**
   * Without the nesting rule for open spans the layers' counts still add up exactly when no closed
   * span of the level overlaps a span shown inside an opened one.
   */
  lemma CountsAddUpIffApart(l: Layers, folds: set<Extent>)
    requires Laminar(folds) && Family(l.base) && DrawnFrom(l.base, folds)
    requires Family(l.descendants) && DrawnFrom(l.descendants, folds)
    requires forall d :: d in l.descendants ==> !OpenAt(l.unfolded, d.startLine)
    ensures |Lines(l.base)| - |Lines(OpenBase(l))| + |Lines(l.descendants)| == |Lines(l.Active())|
      <==> AllApart(l.base - OpenBase(l), l.descendants)
  {
    var closed := l.base - OpenBase(l);
    FamilyMinus(l.base, OpenBase(l));
    assert l.Active() == closed + l.descendants;
    if AllApart(closed, l.descendants) {
      ApartFamiliesAdd(closed, l.descendants);
    } else {
      var b, d :| b in closed && d in l.descendants && !Apart(ExtentOf(b), ExtentOf(d));
      LinesUnion(closed, l.descendants);
      SharedLine(folds, b, d);
      var n :| Hides(b, n) && Hides(d, n);
      assert n in LinesOf(b) && n in LinesOf(d);
      assert n in Lines(closed) * Lines(l.descendants);
    }
  }

  lemma SharedLine(folds: set<Extent>, b: Span, d: Span)
    requires Laminar(folds) && ExtentOf(b) in folds && ExtentOf(d) in folds && !Apart(ExtentOf(b), ExtentOf(d))
    ensures exists n :: Hides(b, n) && Hides(d, n)
  {
    assert Compatible(ExtentOf(b), ExtentOf(d));
    var n := if b.endLine <= d.endLine then b.endLine else d.endLine;
    assert Hides(b, n) && Hides(d, n);
  }

  // ----- explicit folds on top of the closed projection

  /** A closed span holding the head of a fold covers the whole fold. */
  lemma HolderCovers(folds: set<Extent>, p: Span, e: Span)
    requires Laminar(folds) && ExtentOf(p) in folds && ExtentOf(e) in folds
    requires Holds(p, e.startLine)
    ensures e.endLine <= p.endLine
  {
    assert Compatible(ExtentOf(p), ExtentOf(e));
  }

  /** With no closed span over its head, a fold meets only closed spans lying inside it. */
  lemma MetSpanLiesInside(folds: set<Extent>, p: Span, e: Span, line: nat)
    requires Laminar(folds) && ExtentOf(p) in folds && ExtentOf(e) in folds
    requires !Holds(p, e.startLine) && Hides(p, line) && Hides(e, line)
    ensures e.startLine <= p.startLine && p.endLine <= e.endLine
  {
    assert Compatible(ExtentOf(p), ExtentOf(e));
  }

  lemma CoveredFoldAddsNothing(closed: set<Span>, folds: set<Extent>, e: Span, p: Span, line: nat)
    requires Laminar(folds) && DrawnFrom(closed, folds) && ExtentOf(e) in folds && e.endLine < line
    requires p in closed && Holds(p, e.startLine)
    requires forall s :: s in closed ==> !Hides(s, line)
    ensures LinesOf(e) <= Lines(Pick(closed, 0, line - 1))
  {
    HolderCovers(folds, p, e);
    assert !Hides(p, line);
    assert p in Pick(closed, 0, line - 1);
    forall n | n in LinesOf(e) ensures n in Lines(Pick(closed, 0, line - 1)) {
      assert Hides(p, n) && n in LinesOf(p);
    }
  }

  lemma UncoveredFoldOverlap(closed: set<Span>, folds: set<Extent>, e: Span, line: nat)
    requires Laminar(folds) && DrawnFrom(closed, folds) && ExtentOf(e) in folds && e.endLine < line
    requires forall p :: p in closed ==> !Holds(p, e.startLine)
    ensures LinesOf(e) * Lines(Pick(closed, 0, line - 1)) == Lines(Pick(closed, e.startLine, e.endLine))
  {
    var before, inside := Pick(closed, 0, line - 1), Pick(closed, e.startLine, e.endLine);
    forall n | n in LinesOf(e) && n in Lines(before) ensures n in Lines(inside) {
      var p :| p in before && n in LinesOf(p);
      MetSpanLiesInside(folds, p, e, n);
      assert p in inside;
    }
    forall n | n in Lines(inside) ensures n in LinesOf(e) && n in Lines(before) {
      var p :| p in inside && n in LinesOf(p);
      assert p in before && Hides(e, n);
    }
  }

  /** Lines an explicit fold adds: none if a closed span is over its head, else those not hidden inside it. */
  ghost function FoldGain(closed: set<Span>, e: Span): nat {
    if e.endLine <= e.startLine || exists p :: p in closed && Holds(p, e.startLine) then 0
    else Size(e) - Min(Size(e), |Lines(Pick(closed, e.startLine, e.endLine))|)
  }

  /** One step of the explicit-fold loop: what fold `e` adds to the lines already counted. */
  lemma ExplicitFoldAdds(closed: set<Span>, folds: set<Extent>, earlier: set<Span>, e: Span, line: nat)
    requires Laminar(folds) && DrawnFrom(closed, folds) && ExtentOf(e) in folds && e.endLine < line
    requires forall s :: s in closed ==> !Hides(s, line)
    requires AllApart(earlier, {e})
    ensures |Lines(Pick(closed, 0, line - 1)) + Lines(earlier + {e})|
      == |Lines(Pick(closed, 0, line - 1)) + Lines(earlier)| + FoldGain(closed, e)
  {
    LinesUnion(earlier, {e});
    LinesSingle(e);
    LinesOfCount(e);
    ApartLines(earlier, e);
    OverlapWith(closed, folds, e, line);
    AddedLines(Lines(Pick(closed, 0, line - 1)), Lines(earlier), LinesOf(e), LinesOf(e) * Lines(Pick(closed, 0, line - 1)));
  }

  lemma OverlapWith(closed: set<Span>, folds: set<Extent>, e: Span, line: nat)
    requires Laminar(folds) && DrawnFrom(closed, folds) && ExtentOf(e) in folds && e.endLine < line
    requires forall s :: s in closed ==> !Hides(s, line)
    ensures |LinesOf(e) * Lines(Pick(closed, 0, line - 1))| == Size(e) - FoldGain(closed, e)
  {
    if p :| p in closed && Holds(p, e.startLine) {
      OverlapCovered(closed, folds, e, p, line);
    } else {
      OverlapUncovered(closed, folds, e, line);
    }
  }

  lemma OverlapCovered(closed: set<Span>, folds: set<Extent>, e: Span, p: Span, line: nat)
    requires Laminar(folds) && DrawnFrom(closed, folds) && ExtentOf(e) in folds && e.endLine < line
    requires (forall s :: s in closed ==> !Hides(s, line)) && p in closed && Holds(p, e.startLine)
    ensures |LinesOf(e) * Lines(Pick(closed, 0, line - 1))| == Size(e) && FoldGain(closed, e) == 0
  {
    LinesOfCount(e);
    CoveredFoldAddsNothing(closed, folds, e, p, line);
    assert LinesOf(e) * Lines(Pick(closed, 0, line - 1)) == LinesOf(e);
  }

  lemma OverlapUncovered(closed: set<Span>, folds: set<Extent>, e: Span, line: nat)
    requires Laminar(folds) && DrawnFrom(closed, folds) && ExtentOf(e) in folds && e.endLine < line
    requires forall p :: p in closed ==> !Holds(p, e.startLine)
    ensures |LinesOf(e) * Lines(Pick(closed, 0, line - 1))| == Size(e) - FoldGain(closed, e)
  {
    var before, inside := Lines(Pick(closed, 0, line - 1)), Lines(Pick(closed, e.startLine, e.endLine));
    LinesOfCount(e);
    UncoveredFoldOverlap(closed, folds, e, line);
    AddedLines(before, {}, LinesOf(e), inside);
    assert |inside| <= Size(e);
  }

  lemma ApartLines(earlier: set<Span>, e: Span)
    requires AllApart(earlier, {e})
    ensures Lines(earlier) !! LinesOf(e)
  {
    forall n | n in Lines(earlier) ensures n !in LinesOf(e) {
      var s :| s in earlier && n in LinesOf(s);
      assert Apart(ExtentOf(s), ExtentOf(e));
    }
  }

  lemma AddedLines(before: set<nat>, earlier: set<nat>, fold: set<nat>, overlap: set<nat>)
    requires earlier !! fold && fold * before == overlap
    ensures |before + (earlier + fold)| == |before + earlier| + |fold| - |overlap| && |overlap| <= |fold|
  {
    assert before + (earlier + fold) == (before + earlier) + (fold - overlap);
    assert fold == (fold - overlap) + overlap;
  }

  /** At a visible line, the closed spans and folds that end before it hide all hidden lines before it. */
  lemma VisibleLineCount(l: Layers, line: nat, ended: set<Span>)
    requires !l.Hidden(line)
    requires ended <= l.explicitFolds && (forall e :: e in ended ==> e.endLine < line)
    requires forall e :: e in l.explicitFolds && e !in ended ==> line <= e.endLine
    ensures Lines(Pick(l.Active(), 0, line - 1)) + Lines(ended) == l.HiddenBefore(line)
  {
    var counted := Lines(Pick(l.Active(), 0, line - 1)) + Lines(ended);
    forall n | n in counted ensures n in l.HiddenBefore(line) {
      if n in Lines(ended) {
        var s :| s in ended && n in LinesOf(s);
      } else {
        var s :| s in Pick(l.Active(), 0, line - 1) && n in LinesOf(s);
      }
    }
    forall n | n in l.HiddenBefore(line) ensures n in counted {
      var s :| s in l.Active() + l.explicitFolds && Hides(s, n);
      assert n in LinesOf(s) && !Hides(s, line);
      assert s in Pick(l.Active(), 0, line - 1) || s in ended;
    }
  }

  // ----- heads of outermost closed spans

  /** The outermost closed span holding a line: nothing closed hides its head. */
  ghost predicate Outermost(l: Layers, s: Span) {
    s in l.Active() + l.explicitFolds && !l.Hidden(s.startLine)
  }

  lemma WiderHolderIsOutermost(l: Layers, folds: set<Extent>, level: set<Extent>, s: Span, line: nat)
    requires l.Ok(folds, level)
    requires s in l.Active() + l.explicitFolds && Holds(s, line)
    requires forall t :: t in l.Active() + l.explicitFolds && Holds(t, line) ==> s.startLine <= t.startLine
    ensures Outermost(l, s)
  {
    ActiveFamily(l, folds, level);
    forall t | t in l.Active() + l.explicitFolds ensures !Hides(t, s.startLine) {
      assert Compatible(ExtentOf(s), ExtentOf(t));
      assert Holds(t, line) ==> s.startLine <= t.startLine;
    }
  }

  // ----- visible rows

  /** The visible lines at or above a line; one less than their number is the line's visible row. */
  ghost function VisibleUpTo(l: Layers, line: int): set<nat> { set n: nat | n <= line && !l.Hidden(n) }

  ghost function LinesBelow(n: nat): (r: set<nat>)
    ensures forall k: nat :: k in r <==> k < n
    ensures |r| == n
  {
    if n == 0 then {} else LinesBelow(n - 1) + {n - 1}
  }

  lemma HiddenBeforeBounded(l: Layers, line: nat)
    ensures |l.HiddenBefore(line)| <= line
  {
    SubsetSize(l.HiddenBefore(line), LinesBelow(line));
  }

  lemma SubsetSize(a: set<nat>, b: set<nat>)
    requires a <= b
    ensures |a| <= |b|
  {
    assert b == a + (b - a);
  }

  /** A visible line's row is its number less the hidden lines before it. */
  lemma RowOfVisibleLine(l: Layers, line: nat)
    requires !l.Hidden(line)
    ensures |VisibleUpTo(l, line)| == line + 1 - |l.HiddenBefore(line)|
  {
    assert LinesBelow(line + 1) == VisibleUpTo(l, line) + l.HiddenBefore(line);
  }

  /** Every line held by an outermost closed span shares the row of that span's head. */
  lemma RowOfHeldLine(l: Layers, s: Span, line: nat)
    requires Outermost(l, s) && Holds(s, line)
    ensures VisibleUpTo(l, line) == VisibleUpTo(l, s.startLine)
  {
    forall n: nat | s.startLine <= n <= line && !l.Hidden(n) ensures n == s.startLine {
      assert !Hides(s, n);
    }
  }

  lemma RowStep(l: Layers, line: nat)
    ensures |VisibleUpTo(l, line + 1)| == |VisibleUpTo(l, line)| + if l.Hidden(line + 1) then 0 else 1
  {
    assert VisibleUpTo(l, line + 1) == VisibleUpTo(l, line) + if l.Hidden(line + 1) then {} else {line + 1};
  }

  lemma FirstRow(l: Layers)
    ensures !l.Hidden(0) && |VisibleUpTo(l, 0)| == 1
  {
    assert VisibleUpTo(l, 0) == {0};
  }

  lemma RowsIncrease(l: Layers, a: nat, b: nat)
    requires a <= b
    ensures |VisibleUpTo(l, a)| <= |VisibleUpTo(l, b)|
    ensures a < b && !l.Hidden(b) ==> |VisibleUpTo(l, a)| < |VisibleUpTo(l, b)|
  {
    SubsetSize(VisibleUpTo(l, a), VisibleUpTo(l, b));
    if a < b && !l.Hidden(b) {
      SubsetSize(VisibleUpTo(l, a) + {b}, VisibleUpTo(l, b));
    }
  }

  /** When every closed span ends inside the document, its rows are the lines less the hidden ones. */
  lemma RowCount(l: Layers, total: nat)
    requires forall s :: s in l.Active() + l.explicitFolds ==> s.endLine < total
    ensures !l.Hidden(total)
    ensures total > 0 ==> |VisibleUpTo(l, total - 1)| == total - |l.HiddenBefore(total)| >= 1
  {
    if total > 0 {
      RowOfVisibleLine(l, total);
      RowStep(l, total - 1);
      FirstRow(l);
      RowsIncrease(l, 0, total - 1);
    }
  }
}
