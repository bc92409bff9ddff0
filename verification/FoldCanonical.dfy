/** The two-level index over the canonical batches of one document fold level. */
module FoldCanonical {
  import opened Basics
  import opened FoldSpans
  import opened FoldProjection

  const SIZE_MAX: nat := 0xFFFF_FFFF_FFFF_FFFF

  /** startLine + 1 as the source computes it, stuck at the largest size_t. */
  function Next(line: nat): nat { if line == SIZE_MAX then line else line + 1 }

  /** Every span adopted so far, as one flat collection. */
  ghost function Adopted(batches: seq<Projection>): set<Span> {
    set b, s | b in batches && s in b.spans :: s
  }

  function Last(b: Projection): Span requires b.spans != [] { b.spans[|b.spans| - 1] }

  /** The prefix difference with a span that crosses the start of the range taken out again. */
  function WithoutCrossing(startLine: nat, endLine: nat, beforeStart: nat, beforeEnd: nat, crossing: Option<Span>): nat
    requires crossing.Some? ==> Holds(crossing.value, startLine)
  {
    var hidden := if beforeEnd >= beforeStart then beforeEnd - beforeStart else 0;
    if crossing.Some? && crossing.value.startLine < startLine && crossing.value.endLine <= endLine then
      hidden - Min(hidden, Size(crossing.value))
    else hidden
  }

  /** Entry k counts the lines hidden by the first k batches. */
  ghost predicate PrefixOk(batches: seq<Projection>, hiddenPrefix: seq<nat>) {
    && (if hiddenPrefix == [] then batches == [] else |hiddenPrefix| == |batches| + 1)
    && forall k :: 0 <= k < |hiddenPrefix| ==> hiddenPrefix[k] == |Lines(Adopted(batches[..k]))|
  }

  datatype CanonicalIndex = CanonicalIndex(
    batches: seq<Projection>, lastStartLines: seq<nat>, lastEndLines: seq<nat>, hiddenPrefix: seq<nat>)
  {
    ghost function Spans(): set<Span> { Adopted(batches) }

    ghost predicate Valid() {
      && |lastStartLines| == |lastEndLines| == |batches|
      && (forall i :: 0 <= i < |batches| ==> batches[i].Valid() && batches[i].spans != [])
      && (forall i :: 0 <= i < |batches| ==>
            lastStartLines[i] == Last(batches[i]).startLine && lastEndLines[i] == Last(batches[i]).endLine)
      && (forall i, j, s :: 0 <= i < j < |batches| && s in batches[j].spans ==> lastEndLines[i] < s.startLine)
      && PrefixOk(batches, hiddenPrefix)
    }

    function SpanStartingAt(documentLine: nat): (r: Option<Span>)
      requires Valid()
      ensures r.Some? ==> r.value in Spans() && r.value.startLine == documentLine
      ensures r.None? ==> forall s :: s in Spans() ==> s.startLine != documentLine
    {
      LastLinesIncrease(this);
      var found := PartitionPoint(lastStartLines, (line: nat) => line < documentLine, 0, |lastStartLines|);
      LocatedByStart(this, documentLine, found);
      if found == |lastStartLines| then None else batches[found].SpanStartingAt(documentLine)
    }

    function SpanEndingAt(documentLine: nat): (r: Option<Span>)
      requires Valid()
      ensures r.Some? ==> r.value in Spans() && r.value.endLine == documentLine
      ensures r.None? ==> forall s :: s in Spans() ==> s.endLine != documentLine
    {
      LastLinesIncrease(this);
      var found := PartitionPoint(lastEndLines, (line: nat) => line < documentLine, 0, |lastEndLines|);
      LocatedByEnd(this, documentLine, found);
      if found == |lastEndLines| then None else batches[found].SpanEndingAt(documentLine)
    }

    function SpanContaining(documentLine: nat): (r: Option<Span>)
      requires Valid()
      ensures r.Some? ==> r.value in Spans() && Holds(r.value, documentLine)
      ensures r.None? ==> forall s :: s in Spans() ==> !Holds(s, documentLine)
    {
      LastLinesIncrease(this);
      var found := PartitionPoint(lastEndLines, (line: nat) => line < documentLine, 0, |lastEndLines|);
      LocatedByEnd(this, documentLine, found);
      if found == |lastEndLines| then None else batches[found].SpanContaining(documentLine)
    }

    function HiddenBefore(documentLine: nat): (r: nat)
      requires Valid()
      ensures r == |Lines(Pick(Spans(), 0, documentLine - 1))|
    {
      if batches == [] then
        assert Lines(Pick(Spans(), 0, documentLine - 1)) == {};
        0
      else
        LastLinesIncrease(this);
        var index := PartitionPoint(lastEndLines, (line: nat) => line < documentLine, 0, |lastEndLines|);
        PickBefore(this, documentLine, index);
        assert index == |batches| ==> batches[..index] == batches && Lines(HereBefore(this, documentLine, index)) == {};
        assert |hiddenPrefix| == |batches| + 1;
        assert hiddenPrefix[index] == |Lines(Adopted(batches[..index]))|;
        if index >= |batches| then hiddenPrefix[|hiddenPrefix| - 1]
        else hiddenPrefix[index] + batches[index].HiddenLineCountBefore(documentLine)
    }

    function HiddenInRange(startLine: nat, endLine: nat): (r: nat)
      requires Valid()
    {
      if endLine <= startLine || batches == [] then 0
      else
        var beforeStart := HiddenBefore(Next(startLine));
        var beforeEnd := HiddenBefore(Next(endLine));
        WithoutCrossing(startLine, endLine, beforeStart, beforeEnd, SpanContaining(startLine))
    }

    function HiddenLineCount(): (r: nat)
      requires Valid()
      ensures r == |Lines(Spans())|
    {
      assert batches == [] ==> Lines(Spans()) == {};
      assert batches[..|batches|] == batches;
      if hiddenPrefix == [] then 0 else hiddenPrefix[|hiddenPrefix| - 1]
    }
  }

  /** Finds the batch of an adopted span and what the index knows of it there. */
  lemma BatchOf(index: CanonicalIndex, batches: seq<Projection>, s: Span) returns (i: nat)
    requires index.Valid() && batches <= index.batches && s in Adopted(batches)
    ensures i < |batches| && s in index.batches[i].spans
    ensures s.startLine <= index.lastStartLines[i] && s.startLine < s.endLine <= index.lastEndLines[i]
  {
    var b :| b in batches && s in b.spans;
    i :| 0 <= i < |batches| && batches[i] == b;
    LastOfBatch(index, i);
  }

  lemma LastOfBatch(index: CanonicalIndex, i: nat)
    requires index.Valid() && i < |index.batches|
    ensures index.lastStartLines[i] < index.lastEndLines[i]
    ensures forall s :: s in index.batches[i].spans ==>
      s.startLine <= index.lastStartLines[i] && s.startLine < s.endLine <= index.lastEndLines[i]
  {
    assert StrictlyApart(index.batches[i].spans);
  }

  lemma LastLinesIncrease(index: CanonicalIndex)
    requires index.Valid()
    ensures forall i, j :: 0 <= i < j < |index.batches| ==>
      index.lastStartLines[i] < index.lastStartLines[j] && index.lastEndLines[i] < index.lastEndLines[j]
  {
    forall i, j | 0 <= i < j < |index.batches|
      ensures index.lastStartLines[i] < index.lastStartLines[j] && index.lastEndLines[i] < index.lastEndLines[j]
    {
      LastOfBatch(index, i);
      LastOfBatch(index, j);
      assert Last(index.batches[j]) in index.batches[j].spans;
    }
  }

  /** Outside batch k every adopted span starts before or after the line. */
  lemma LocatedByStart(index: CanonicalIndex, line: nat, k: nat)
    requires index.Valid() && k <= |index.batches|
    requires forall i :: 0 <= i < k ==> index.lastStartLines[i] < line
    requires forall i :: k <= i < |index.batches| ==> line <= index.lastStartLines[i]
    ensures forall s :: s in index.Spans() && s.startLine == line ==> k < |index.batches| && s in index.batches[k].spans
  {
    forall s | s in index.Spans() && s.startLine == line ensures k < |index.batches| && s in index.batches[k].spans {
      var i := BatchOf(index, index.batches, s);
      if k < i { LastOfBatch(index, k); }
    }
  }

  /** Outside batch k every adopted span ends before the line or starts after it. */
  lemma LocatedByEnd(index: CanonicalIndex, line: nat, k: nat)
    requires index.Valid() && k <= |index.batches|
    requires forall i :: 0 <= i < k ==> index.lastEndLines[i] < line
    requires forall i :: k <= i < |index.batches| ==> line <= index.lastEndLines[i]
    ensures forall s :: s in index.Spans() ==>
      s.endLine < line || line < s.startLine || (k < |index.batches| && s in index.batches[k].spans)
    ensures forall s :: s in index.Spans() ==> s.startLine < s.endLine
  {
    forall s | s in index.Spans()
      ensures s.endLine < line || line < s.startLine || (k < |index.batches| && s in index.batches[k].spans)
      ensures s.startLine < s.endLine
    {
      var i := BatchOf(index, index.batches, s);
    }
  }

  ghost function HereBefore(index: CanonicalIndex, line: nat, k: nat): set<Span> {
    if k < |index.batches| then Pick(Elements(index.batches[k].spans), 0, line - 1) else {}
  }

  lemma InAdopted(batches: seq<Projection>, i: nat, s: Span)
    requires i < |batches| && s in batches[i].spans
    ensures s in Adopted(batches)
  {
  }

  lemma PickMember(index: CanonicalIndex, line: nat, k: nat, s: Span)
    requires index.Valid() && k <= |index.batches|
    requires forall i :: 0 <= i < k ==> index.lastEndLines[i] < line
    requires forall i :: k <= i < |index.batches| ==> line <= index.lastEndLines[i]
    ensures s in Pick(index.Spans(), 0, line - 1) ==> s in Adopted(index.batches[..k]) || s in HereBefore(index, line, k)
    ensures s in Adopted(index.batches[..k]) ==> s in Pick(index.Spans(), 0, line - 1)
  {
    if s in Adopted(index.batches[..k]) {
      var i := BatchOf(index, index.batches[..k], s);
      InAdopted(index.batches, i, s);
    } else if s in Pick(index.Spans(), 0, line - 1) {
      var i := BatchOf(index, index.batches, s);
    }
  }

  lemma PickIsUnion(index: CanonicalIndex, line: nat, k: nat)
    requires index.Valid() && k <= |index.batches|
    requires forall i :: 0 <= i < k ==> index.lastEndLines[i] < line
    requires forall i :: k <= i < |index.batches| ==> line <= index.lastEndLines[i]
    ensures Pick(index.Spans(), 0, line - 1) == Adopted(index.batches[..k]) + HereBefore(index, line, k)
  {
    forall s ensures s in Pick(index.Spans(), 0, line - 1) <==> s in Adopted(index.batches[..k]) + HereBefore(index, line, k) {
      PickMember(index, line, k, s);
    }
  }

  lemma PickBefore(index: CanonicalIndex, line: nat, k: nat)
    requires index.Valid() && k <= |index.batches|
    requires forall i :: 0 <= i < k ==> index.lastEndLines[i] < line
    requires forall i :: k <= i < |index.batches| ==> line <= index.lastEndLines[i]
    ensures |Lines(Pick(index.Spans(), 0, line - 1))| == |Lines(Adopted(index.batches[..k]))| + |Lines(HereBefore(index, line, k))|
  {
    PickIsUnion(index, line, k);
    if k < |index.batches| {
      EarlierBatchesApart(index, k);
    }
    ApartFamiliesAdd(Adopted(index.batches[..k]), HereBefore(index, line, k));
  }

  lemma EarlierBatchesApart(index: CanonicalIndex, k: nat)
    requires index.Valid() && k < |index.batches|
    ensures AllApart(Adopted(index.batches[..k]), Elements(index.batches[k].spans))
  {
    forall s, t | s in Adopted(index.batches[..k]) && t in index.batches[k].spans ensures s.endLine < t.startLine {
      var i := BatchOf(index, index.batches[..k], s);
    }
  }

  /** The adopted spans keep strictly apart. */
  lemma AdoptedFamily(index: CanonicalIndex)
    requires index.Valid()
    ensures Family(index.Spans())
  {
    forall s, t | s in index.Spans() && t in index.Spans()
      ensures s.startLine < s.endLine && (s == t || Apart(ExtentOf(s), ExtentOf(t)))
    {
      var i := BatchOf(index, index.batches, s);
      var j := BatchOf(index, index.batches, t);
      if i == j { assert StrictlyApart(index.batches[i].spans); }
    }
  }

  // ----- hidden lines in a range

  /** Spans reaching over the start of the range but ending inside it. */
  ghost function Crossing(ss: set<Span>, startLine: nat, endLine: nat): set<Span> {
    set s | s in ss && s.startLine < startLine < s.endLine <= endLine
  }

  lemma DifferenceCounts(ss: set<Span>, startLine: nat, endLine: nat)
    requires Family(ss) && startLine < endLine
    ensures |Lines(Pick(ss, 0, endLine))| - |Lines(Pick(ss, 0, startLine))|
         == |Lines(Pick(ss, startLine, endLine))| + |Lines(Crossing(ss, startLine, endLine))|
  {
    var upToEnd, upToStart := Pick(ss, 0, endLine), Pick(ss, 0, startLine);
    var inside, crossing := Pick(ss, startLine, endLine), Crossing(ss, startLine, endLine);
    FamilyMinus(upToEnd, upToStart);
    assert upToEnd - upToStart == inside + crossing;
    ApartFamiliesAdd(inside, crossing);
  }

  lemma CrossingIsOne(ss: set<Span>, startLine: nat, endLine: nat, s: Span)
    requires Family(ss) && s in Crossing(ss, startLine, endLine)
    ensures |Lines(Crossing(ss, startLine, endLine))| == Size(s)
  {
    assert Crossing(ss, startLine, endLine) == {s} by {
      forall t | t in Crossing(ss, startLine, endLine) ensures t == s { }
    }
    LinesSingle(s);
    LinesOfCount(s);
  }

  /** The crossing test, stated on a family of spans and the spans found at the start of the range. */
  lemma CrossingTest(ss: set<Span>, startLine: nat, endLine: nat, holding: Option<Span>, ending: Option<Span>)
    requires Family(ss) && startLine < endLine
    requires if holding.Some? then holding.value in ss && Holds(holding.value, startLine)
             else forall s :: s in ss ==> !Holds(s, startLine)
    requires if ending.Some? then ending.value in ss && ending.value.endLine == startLine
             else forall s :: s in ss ==> s.endLine != startLine
    ensures ending.Some? ==> holding == ending && Lines(Crossing(ss, startLine, endLine)) == {}
    ensures ending.None? ==>
      |Lines(Crossing(ss, startLine, endLine))| ==
        if holding.Some? && holding.value.startLine < startLine && holding.value.endLine <= endLine
        then Size(holding.value) else 0
  {
    if s :| s in Crossing(ss, startLine, endLine) {
      CrossingIsOne(ss, startLine, endLine, s);
      assert Holds(s, startLine);
    } else {
      assert Lines(Crossing(ss, startLine, endLine)) == {};
      assert holding.Some? ==> holding.value !in Crossing(ss, startLine, endLine);
    }
    assert ending.Some? ==> Holds(ending.value, startLine);
  }

  ghost function RangeValue(ss: set<Span>, startLine: nat, endLine: nat, ending: Option<Span>): nat {
    var exact := |Lines(Pick(ss, startLine, endLine))|;
    if ending.Some? && ending.value.startLine <= ending.value.endLine then exact - Min(exact, Size(ending.value)) else exact
  }

  lemma WithoutCrossingValue(ss: set<Span>, startLine: nat, endLine: nat, holding: Option<Span>, ending: Option<Span>)
    requires Family(ss) && startLine < endLine <= SIZE_MAX
    requires forall s :: s in ss ==> s.endLine < SIZE_MAX
    requires if holding.Some? then holding.value in ss && Holds(holding.value, startLine)
             else forall s :: s in ss ==> !Holds(s, startLine)
    requires if ending.Some? then ending.value in ss && ending.value.endLine == startLine
             else forall s :: s in ss ==> s.endLine != startLine
    ensures WithoutCrossing(startLine, endLine,
        |Lines(Pick(ss, 0, Next(startLine) - 1))|, |Lines(Pick(ss, 0, Next(endLine) - 1))|, holding)
      == RangeValue(ss, startLine, endLine, ending)
  {
    assert Pick(ss, 0, Next(startLine) - 1) == Pick(ss, 0, startLine);
    assert Pick(ss, 0, Next(endLine) - 1) == Pick(ss, 0, endLine);
    DifferenceCounts(ss, startLine, endLine);
    CrossingTest(ss, startLine, endLine, holding, ending);
  }

  /** What the range query returns: exact, unless a span ends exactly where the range starts. */
  lemma HiddenInRangeValue(index: CanonicalIndex, startLine: nat, endLine: nat, ending: Option<Span>)
    requires index.Valid() && startLine < endLine <= SIZE_MAX
    requires forall s :: s in index.Spans() ==> s.endLine < SIZE_MAX
    requires if ending.Some? then ending.value in index.Spans() && ending.value.endLine == startLine
             else forall s :: s in index.Spans() ==> s.endLine != startLine
    ensures index.HiddenInRange(startLine, endLine) == RangeValue(index.Spans(), startLine, endLine, ending)
  {
    if index.batches == [] {
      assert Lines(Pick(index.Spans(), startLine, endLine)) == {};
    } else {
      var ss, holding := index.Spans(), index.SpanContaining(startLine);
      assert Family(ss) by { AdoptedFamily(index); }
      WithoutCrossingValue(ss, startLine, endLine, holding, ending);
      assert index.HiddenBefore(Next(startLine)) == |Lines(Pick(ss, 0, Next(startLine) - 1))|;
      assert index.HiddenBefore(Next(endLine)) == |Lines(Pick(ss, 0, Next(endLine) - 1))|;
    }
  }

  /**
   * The range query counts the spans inside the range exactly when no adopted span ends on the
   * first line of the range, or no adopted span lies inside the range at all.
   */
  lemma HiddenInRangeExact(index: CanonicalIndex, startLine: nat, endLine: nat)
    requires index.Valid() && startLine < endLine <= SIZE_MAX
    requires forall s :: s in index.Spans() ==> s.endLine < SIZE_MAX
    ensures index.HiddenInRange(startLine, endLine) == |Lines(Pick(index.Spans(), startLine, endLine))|
      <==> (forall s :: s in index.Spans() ==> s.endLine != startLine) || Pick(index.Spans(), startLine, endLine) == {}
  {
    var ss := index.Spans();
    assert Family(ss) by { AdoptedFamily(index); }
    if s :| s in ss && s.endLine == startLine {
      HiddenInRangeValue(index, startLine, endLine, Some(s));
      RangeValueExact(ss, startLine, endLine, Some(s));
    } else {
      HiddenInRangeValue(index, startLine, endLine, None);
    }
  }

  lemma RangeValueExact(ss: set<Span>, startLine: nat, endLine: nat, ending: Option<Span>)
    requires Family(ss) && ending.Some? && ending.value in ss
    ensures RangeValue(ss, startLine, endLine, ending) == |Lines(Pick(ss, startLine, endLine))| <==> Pick(ss, startLine, endLine) == {}
  {
    SomeLinePicked(ss, startLine, endLine);
  }

  lemma SomeLinePicked(ss: set<Span>, startLine: nat, endLine: nat)
    requires Family(ss)
    ensures |Lines(Pick(ss, startLine, endLine))| == 0 <==> Pick(ss, startLine, endLine) == {}
  {
    var inside := Pick(ss, startLine, endLine);
    if s :| s in inside {
      assert Hides(s, s.endLine);
      assert s.endLine in LinesOf(s);
      assert s.endLine in Lines(inside);
    } else {
      assert Lines(inside) == {};
    }
  }

  const FIRST := Span(0, 2, 1, Generic, false, false)
  const SECOND := Span(3, 4, 1, Generic, false, false)
  const TWO_SPANS := CanonicalIndex([Projection([FIRST, SECOND], [0, 2, 3])], [3], [4], [0, 3])

  lemma TwoSpansBatch()
    ensures TWO_SPANS.batches[0].Valid() && |Lines({FIRST, SECOND})| == 3
  {
    var spans := [FIRST, SECOND];
    assert StrictlyApart(spans);
    assert spans[..0] == [] && spans[..1] == [FIRST] && spans[..2] == spans;
    TotalSizeNext(spans, 0);
    TotalSizeNext(spans, 1);
    TotalSizeCountsLines(spans);
    assert Elements(spans) == {FIRST, SECOND};
  }

  lemma TwoSpansIndex()
    ensures TWO_SPANS.Valid() && TWO_SPANS.Spans() == {FIRST, SECOND}
  {
    TwoSpansBatch();
    var batches := TWO_SPANS.batches;
    assert batches[..1] == batches && batches[..0] == [];
    assert Lines(Adopted([])) == {};
    assert Adopted(batches) == {FIRST, SECOND} by {
      InAdopted(batches, 0, FIRST);
      InAdopted(batches, 0, SECOND);
    }
  }

  /** The range query does lose lines: a range that starts on the last line of one span misses the next span. */
  lemma RangeStartingAtAnEndLosesLines()
    ensures TWO_SPANS.Valid() && TWO_SPANS.HiddenInRange(2, 4) == 0
    ensures |Lines(Pick(TWO_SPANS.Spans(), 2, 4))| == 1
  {
    TwoSpansIndex();
    assert Pick(TWO_SPANS.Spans(), 2, 4) == {SECOND};
    LinesSingle(SECOND);
    LinesOfCount(SECOND);
    HiddenInRangeValue(TWO_SPANS, 2, 4, Some(FIRST));
  }

  // ----- adopting a batch

  function Pushed(index: CanonicalIndex, batch: Projection): CanonicalIndex
    requires batch.spans != []
  {
    var prefix := if index.hiddenPrefix == [] then [0] else index.hiddenPrefix;
    CanonicalIndex(
      index.batches + [batch],
      index.lastStartLines + [Last(batch).startLine],
      index.lastEndLines + [Last(batch).endLine],
      prefix + [prefix[|prefix| - 1] + batch.HiddenLineCount()])
  }

  ghost predicate FollowsAll(batch: Projection, index: CanonicalIndex) {
    forall s, t :: s in index.Spans() && t in batch.spans ==> s.endLine < t.startLine
  }

  /** Adopting a batch that lies after all earlier ones keeps the index and adds exactly its spans. */
  lemma PushedValid(index: CanonicalIndex, batch: Projection)
    requires index.Valid() && batch.Valid() && batch.spans != []
    requires FollowsAll(batch, index)
    ensures Pushed(index, batch).Valid()
    ensures Pushed(index, batch).Spans() == index.Spans() + Elements(batch.spans)
  {
    PushedSpans(index.batches, batch);
    PushedLastLines(index, batch);
    PushedTotal(index, batch);
    PushedPrefix(index.batches, index.hiddenPrefix, batch, index.HiddenLineCount() + batch.HiddenLineCount());
    PushedBatches(index, batch);
  }

  lemma PushedBatches(index: CanonicalIndex, batch: Projection)
    requires index.Valid() && batch.Valid() && batch.spans != []
    ensures var next := Pushed(index, batch);
      && |next.lastStartLines| == |next.lastEndLines| == |next.batches|
      && (forall i :: 0 <= i < |next.batches| ==> next.batches[i].Valid() && next.batches[i].spans != [])
      && (forall i :: 0 <= i < |next.batches| ==>
            next.lastStartLines[i] == Last(next.batches[i]).startLine && next.lastEndLines[i] == Last(next.batches[i]).endLine)
      && next.hiddenPrefix == (if index.hiddenPrefix == [] then [0] else index.hiddenPrefix) + [index.HiddenLineCount() + batch.HiddenLineCount()]
  {
    var next, n := Pushed(index, batch), |index.batches|;
    forall i | 0 <= i < |next.batches| ensures
        && next.batches[i].Valid() && next.batches[i].spans != []
        && next.lastStartLines[i] == Last(next.batches[i]).startLine && next.lastEndLines[i] == Last(next.batches[i]).endLine {
      if i < n { assert next.batches[i] == index.batches[i]; } else { assert next.batches[i] == batch; }
    }
  }

  lemma PushedSpans(batches: seq<Projection>, batch: Projection)
    ensures Adopted(batches + [batch]) == Adopted(batches) + Elements(batch.spans)
  {
    forall s | s in Adopted(batches) + Elements(batch.spans) ensures s in Adopted(batches + [batch]) {
      if s in Adopted(batches) {
        var b :| b in batches && s in b.spans;
        assert b in batches + [batch];
      } else {
        InAdopted(batches + [batch], |batches|, s);
      }
    }
  }

  lemma PushedPrefix(batches: seq<Projection>, prefix: seq<nat>, batch: Projection, more: nat)
    requires PrefixOk(batches, prefix)
    requires more == |Lines(Adopted(batches))| + batch.HiddenLineCount() == |Lines(Adopted(batches + [batch]))|
    ensures PrefixOk(batches + [batch], (if prefix == [] then [0] else prefix) + [more])
  {
    var all, next := batches + [batch], (if prefix == [] then [0] else prefix) + [more];
    assert Lines(Adopted([])) == {};
    forall k | 0 <= k < |next| ensures next[k] == |Lines(Adopted(all[..k]))| {
      if k <= |batches| { assert all[..k] == batches[..k]; } else { assert all[..k] == all; }
    }
  }

  lemma PushedTotal(index: CanonicalIndex, batch: Projection)
    requires index.Valid() && batch.Valid() && batch.spans != []
    requires FollowsAll(batch, index)
    ensures index.HiddenLineCount() + batch.HiddenLineCount() == |Lines(Adopted(index.batches + [batch]))|
  {
    PushedSpans(index.batches, batch);
    ApartFamiliesAdd(index.Spans(), Elements(batch.spans));
  }

  lemma PushedLastLines(index: CanonicalIndex, batch: Projection)
    requires index.Valid() && batch.spans != []
    requires FollowsAll(batch, index)
    ensures var next := Pushed(index, batch);
      forall i, j, s :: 0 <= i < j < |next.batches| && s in next.batches[j].spans ==> next.lastEndLines[i] < s.startLine
  {
    var next := Pushed(index, batch);
    forall i, j, s | 0 <= i < j < |next.batches| && s in next.batches[j].spans ensures next.lastEndLines[i] < s.startLine {
      if j == |index.batches| {
        InAdopted(index.batches, i, Last(index.batches[i]));
      }
    }
  }
}
