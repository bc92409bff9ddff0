/** Fold spans of a document, the lines they hide, and how to count those lines. */
module FoldSpans {

  datatype SourceKind = Delimiter | Indent | Fence | Section | Directive | Macro | Target | Generic

  datatype Span = Span(
    startLine: nat, endLine: nat, level: nat, sourceKind: SourceKind, open: bool, siblingContinuation: bool)

  /** What identifies a fold of the document, whatever analysis reported it. */
  datatype Extent = Extent(startLine: nat, endLine: nat, sourceKind: SourceKind)

  function ExtentOf(s: Span): Extent { Extent(s.startLine, s.endLine, s.sourceKind) }

  /** A closed span keeps its head line and hides the rest. */
  predicate Hides(s: Span, line: nat) { s.startLine < line <= s.endLine }

  predicate Holds(s: Span, line: nat) { s.startLine <= line <= s.endLine }

  // ----- families of spans

  predicate Apart(a: Extent, b: Extent) { a.endLine < b.startLine || b.endLine < a.startLine }

  predicate Nested(inner: Extent, outer: Extent) {
    outer.startLine < inner.startLine && inner.endLine <= outer.endLine
  }

  /** Two folds of one document: the same, strictly apart, or one below the other's head. */
  predicate Compatible(a: Extent, b: Extent) { a == b || Apart(a, b) || Nested(a, b) || Nested(b, a) }

  ghost predicate Laminar(folds: set<Extent>) {
    && (forall f :: f in folds ==> f.startLine < f.endLine)
    && (forall f, g :: f in folds && g in folds ==> Compatible(f, g))
  }

  /** Sorted, non-empty, and with a gap between neighbours. */
  predicate StrictlyApart(spans: seq<Span>) {
    && (forall i :: 0 <= i < |spans| ==> spans[i].startLine < spans[i].endLine)
    && (forall i, j :: 0 <= i < j < |spans| ==> spans[i].endLine < spans[j].startLine)
  }

  ghost function Elements(spans: seq<Span>): set<Span> { set s | s in spans }

  // ----- hidden lines

  ghost function LinesOf(s: Span): set<nat> { set l: nat | l <= s.endLine && Hides(s, l) }

  ghost function Lines(ss: set<Span>): set<nat> { set s, l | s in ss && l in LinesOf(s) :: l }

  /** The spans of `ss` lying wholly inside the lines lo..hi. */
  ghost function Pick(ss: set<Span>, lo: nat, hi: int): set<Span> {
    set s | s in ss && lo <= s.startLine && s.endLine <= hi
  }

  function Size(s: Span): nat requires s.startLine <= s.endLine { s.endLine - s.startLine }

  function TotalSize(spans: seq<Span>): nat
    requires StrictlyApart(spans)
  {
    if spans == [] then 0 else TotalSize(spans[..|spans| - 1]) + Size(spans[|spans| - 1])
  }

  lemma {:induction false} LinesOfCount(s: Span)
    requires s.startLine <= s.endLine
    ensures |LinesOf(s)| == Size(s)
    decreases s.endLine
  {
    if s.startLine == s.endLine {
      assert LinesOf(s) == {};
    } else {
      var t := s.(endLine := s.endLine - 1);
      LinesOfCount(t);
      assert Hides(s, s.endLine);
      assert forall l :: Hides(s, l) <==> Hides(t, l) || l == s.endLine;
      assert LinesOf(s) == LinesOf(t) + {s.endLine};
    }
  }

  lemma LinesUnion(a: set<Span>, b: set<Span>)
    ensures Lines(a + b) == Lines(a) + Lines(b)
  {
    forall l | l in Lines(a) + Lines(b) ensures l in Lines(a + b) {
      var s :| s in a + b && l in LinesOf(s);
    }
  }

  lemma LinesSingle(s: Span)
    ensures Lines({s}) == LinesOf(s)
  {
    assert forall l :: l in LinesOf(s) ==> l in Lines({s});
  }

  ghost predicate AllApart(a: set<Span>, b: set<Span>) {
    forall s, t :: s in a && t in b ==> Apart(ExtentOf(s), ExtentOf(t))
  }

  /** Families that keep apart hide different lines, so their counts add up. */
  lemma ApartFamiliesAdd(a: set<Span>, b: set<Span>)
    requires AllApart(a, b)
    ensures |Lines(a + b)| == |Lines(a)| + |Lines(b)|
  {
    LinesUnion(a, b);
    assert Lines(a) !! Lines(b);
  }

  /** The number of lines hidden by strictly apart spans is the sum of their sizes. */
  lemma {:induction false} TotalSizeCountsLines(spans: seq<Span>)
    requires StrictlyApart(spans)
    ensures |Lines(Elements(spans))| == TotalSize(spans)
  {
    if spans == [] {
      assert Lines(Elements(spans)) == {};
    } else {
      var n := |spans| - 1;
      var front, last := spans[..n], spans[n];
      TotalSizeCountsLines(front);
      LastSpanApart(spans);
      ApartFamiliesAdd(Elements(front), {last});
      LinesSingle(last);
      LinesOfCount(last);
      assert TotalSize(spans) == TotalSize(front) + Size(last);
    }
  }

  lemma LastSpanApart(spans: seq<Span>)
    requires StrictlyApart(spans) && spans != []
    ensures var n := |spans| - 1;
      && Elements(spans) == Elements(spans[..n]) + {spans[n]}
      && AllApart(Elements(spans[..n]), {spans[n]})
  {
    assert spans == spans[..|spans| - 1] + [spans[|spans| - 1]];
  }

  /** Proper spans, any two of them strictly apart. */
  ghost predicate Family(ss: set<Span>) {
    && (forall s :: s in ss ==> s.startLine < s.endLine)
    && (forall s, t :: s in ss && t in ss && s != t ==> Apart(ExtentOf(s), ExtentOf(t)))
  }

  lemma FamilyMinus(all: set<Span>, part: set<Span>)
    requires Family(all) && part <= all
    ensures |Lines(all - part)| == |Lines(all)| - |Lines(part)|
  {
    assert all == (all - part) + part;
    ApartFamiliesAdd(all - part, part);
  }
}
