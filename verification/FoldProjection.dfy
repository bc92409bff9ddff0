/** A closed projection: spans that hide lines, indexed for binary search (MRFoldClosedProjection). */
module FoldProjection {
  import opened Basics
  import opened FoldSpans

  /** std::lower_bound and std::upper_bound: where a partitioned range stops satisfying `before`. */
  function PartitionPoint<T>(s: seq<T>, before: T -> bool, lo: nat, hi: nat): (k: nat)
    requires lo <= hi <= |s|
    requires forall i, j :: lo <= i < j < hi && before(s[j]) ==> before(s[i])
    ensures lo <= k <= hi
    ensures forall i :: lo <= i < k ==> before(s[i])
    ensures forall i :: k <= i < hi ==> !before(s[i])
    decreases hi - lo
  {
    if lo == hi then lo
    else
      var middle := lo + (hi - lo) / 2;
      if before(s[middle]) then PartitionPoint(s, before, middle + 1, hi)
      else PartitionPoint(s, before, lo, middle)
  }

  // ----- finalize

  predicate Precedes(a: Span, b: Span) {
    if a.startLine != b.startLine then a.startLine < b.startLine else a.endLine > b.endLine
  }

  predicate Ordered(spans: seq<Span>) {
    forall i, j :: 0 <= i < j < |spans| ==> !Precedes(spans[j], spans[i])
  }

  function InsertOrdered(s: Span, spans: seq<Span>): seq<Span> {
    var n := |spans| - 1;
    if spans == [] || !Precedes(s, spans[n]) then spans + [s]
    else InsertOrdered(s, spans[..n]) + [spans[n]]
  }

  /** std::sort with the order above; equal spans keep their order. */
  function Sorted(spans: seq<Span>): seq<Span> {
    var n := |spans| - 1;
    if spans == [] then [] else InsertOrdered(spans[n], Sorted(spans[..n]))
  }

  function Closed(s: Span): Span { s.(open := false) }

  /** The compaction loop: drop empty spans and spans starting inside the last one kept. */
  function Kept(ordered: seq<Span>): (r: seq<Span>)
    ensures |r| <= |ordered|
  {
    if ordered == [] then []
    else
      var n := |ordered| - 1;
      var r := Kept(ordered[..n]);
      var s := ordered[n];
      if s.endLine <= s.startLine then r
      else if r != [] && s.startLine <= r[|r| - 1].endLine then r
      else r + [Closed(s)]
  }

  function Finalized(spans: seq<Span>): seq<Span> { Kept(Sorted(spans)) }

  predicate Proper(s: Span) { s.startLine < s.endLine }

  /** `o` is why `s` needs no place of its own: it starts no later and reaches over s's head. */
  predicate Represents(o: Span, s: Span) {
    && o.startLine <= s.startLine <= o.endLine
    && (o.startLine == s.startLine ==> s.endLine <= o.endLine)
  }

  lemma {:induction false} InsertOrderedSorts(s: Span, spans: seq<Span>)
    requires Ordered(spans)
    ensures Ordered(InsertOrdered(s, spans))
    ensures multiset(InsertOrdered(s, spans)) == multiset(spans) + multiset{s}
  {
    var n := |spans| - 1;
    if spans == [] || !Precedes(s, spans[n]) {
    } else {
      var r := InsertOrdered(s, spans[..n]);
      assert spans == spans[..n] + [spans[n]];
      InsertOrderedSorts(s, spans[..n]);
      forall x | x in r ensures !Precedes(spans[n], x) {
        assert x in multiset(r);
      }
    }
  }

  lemma {:induction false} SortedSorts(spans: seq<Span>)
    ensures Ordered(Sorted(spans))
    ensures multiset(Sorted(spans)) == multiset(spans)
  {
    if spans != [] {
      var n := |spans| - 1;
      assert spans == spans[..n] + [spans[n]];
      SortedSorts(spans[..n]);
      InsertOrderedSorts(spans[n], Sorted(spans[..n]));
    }
  }

  lemma SortedElements(spans: seq<Span>)
    ensures forall s :: s in Sorted(spans) <==> s in spans
  {
    SortedSorts(spans);
    assert forall s :: s in Sorted(spans) <==> s in multiset(Sorted(spans));
  }

  ghost predicate FromInput(out: seq<Span>, spans: seq<Span>) {
    forall o :: o in out ==> exists s :: s in spans && Proper(s) && o == Closed(s)
  }

  ghost predicate Represented(s: Span, out: seq<Span>) { exists o :: o in out && Represents(o, s) }

  lemma {:induction false} KeptFromInput(ordered: seq<Span>)
    ensures FromInput(Kept(ordered), ordered)
  {
    if ordered != [] {
      var n := |ordered| - 1;
      KeptFromInput(ordered[..n]);
      assert ordered == ordered[..n] + [ordered[n]];
    }
  }

  lemma LastKept(ordered: seq<Span>)
    requires ordered != [] && Ordered(ordered)
    ensures var n := |ordered| - 1; forall o :: o in Kept(ordered[..n]) ==> !Precedes(ordered[n], o)
  {
    var n := |ordered| - 1;
    KeptFromInput(ordered[..n]);
    forall o | o in Kept(ordered[..n]) ensures !Precedes(ordered[n], o) {
      var s :| s in ordered[..n] && Proper(s) && o == Closed(s);
    }
  }

  lemma {:induction false} KeptApart(ordered: seq<Span>)
    requires Ordered(ordered)
    ensures StrictlyApart(Kept(ordered))
  {
    if ordered != [] {
      KeptApart(ordered[..|ordered| - 1]);
      LastKept(ordered);
    }
  }

  lemma {:induction false} KeptRepresents(ordered: seq<Span>, i: nat)
    requires Ordered(ordered) && i < |ordered| && Proper(ordered[i])
    ensures Represented(ordered[i], Kept(ordered))
  {
    var n := |ordered| - 1;
    var r := Kept(ordered[..n]);
    if i < n {
      KeptRepresents(ordered[..n], i);
      var o :| o in r && Represents(o, ordered[i]);
      assert o in Kept(ordered);
    } else if r != [] && ordered[n].startLine <= r[|r| - 1].endLine {
      LastKept(ordered);
      assert Kept(ordered) == r && r[|r| - 1] in r;
      assert Represents(r[|r| - 1], ordered[i]);
    } else {
      assert Kept(ordered)[|r|] == Closed(ordered[i]);
      assert Represents(Closed(ordered[i]), ordered[i]);
    }
  }

  /** finalize yields strictly apart closed spans, all taken from the input. */
  lemma FinalizedApart(spans: seq<Span>)
    ensures StrictlyApart(Finalized(spans))
    ensures FromInput(Finalized(spans), spans)
  {
    SortedSorts(spans);
    SortedElements(spans);
    KeptApart(Sorted(spans));
    KeptFromInput(Sorted(spans));
  }

  /** Every span of the input starts inside a span that finalize keeps. */
  lemma FinalizedRepresents(spans: seq<Span>, s: Span)
    requires s in spans && Proper(s)
    ensures Represented(s, Finalized(spans))
  {
    SortedSorts(spans);
    SortedElements(spans);
    var i :| 0 <= i < |Sorted(spans)| && Sorted(spans)[i] == s;
    KeptRepresents(Sorted(spans), i);
  }

  ghost predicate CompatibleSpans(spans: seq<Span>) {
    forall s, t :: s in spans && t in spans && Proper(s) && Proper(t)
      ==> s.startLine == t.startLine || Compatible(ExtentOf(s), ExtentOf(t))
  }

  lemma ReachesOver(t: Span, s: Span, l: nat)
    requires Represents(t, s) && (s.startLine == t.startLine || Compatible(ExtentOf(s), ExtentOf(t)))
    requires Hides(s, l)
    ensures Hides(t, l)
  {
  }

  lemma ReachesTheEnd(t: Span, s: Span)
    requires Represents(t, s) && (s.startLine == t.startLine || Compatible(ExtentOf(s), ExtentOf(t)))
    ensures s.endLine <= t.endLine
  {
  }

  /** On nested-or-apart input it lies in one. */
  lemma FinalizedContains(spans: seq<Span>, s: Span) returns (o: Span)
    requires CompatibleSpans(spans) && s in spans && Proper(s)
    ensures o in Finalized(spans) && o.startLine <= s.startLine && s.endLine <= o.endLine
  {
    FinalizedRepresents(spans, s);
    o :| o in Finalized(spans) && Represents(o, s);
    FinalizedApart(spans);
    var t :| t in spans && Proper(t) && o == Closed(t);
    ReachesTheEnd(t, s);
  }

  lemma FinalizedHides(spans: seq<Span>, s: Span, l: nat)
    requires CompatibleSpans(spans) && s in spans && Hides(s, l)
    ensures exists o :: o in Finalized(spans) && Hides(o, l)
  {
    FinalizedRepresents(spans, s);
    var o :| o in Finalized(spans) && Represents(o, s);
    FinalizedApart(spans);
    var t :| t in spans && Proper(t) && o == Closed(t);
    ReachesOver(t, s, l);
  }

  /** On nested-or-apart input, finalize hides exactly the lines the input hides. */
  lemma FinalizedHidesTheSameLines(spans: seq<Span>)
    requires CompatibleSpans(spans)
    ensures Lines(Elements(Finalized(spans))) == Lines(Elements(spans))
  {
    forall l | l in Lines(Elements(Finalized(spans))) ensures l in Lines(Elements(spans)) {
      var o :| o in Elements(Finalized(spans)) && l in LinesOf(o);
      FinalizedApart(spans);
      var s :| s in spans && Proper(s) && o == Closed(s);
      assert s in Elements(spans) && Hides(s, l) && l in LinesOf(s);
    }
    forall l | l in Lines(Elements(spans)) ensures l in Lines(Elements(Finalized(spans))) {
      var s :| s in Elements(spans) && l in LinesOf(s);
      FinalizedHides(spans, s, l);
      var o :| o in Finalized(spans) && Hides(o, l);
      assert o in Elements(Finalized(spans)) && l in LinesOf(o);
    }
  }

  lemma SortedNext(spans: seq<Span>, k: nat)
    requires k < |spans|
    ensures Sorted(spans[..k + 1]) == InsertOrdered(spans[k], Sorted(spans[..k]))
  {
    assert spans[..k + 1][..k] == spans[..k];
  }

  lemma InsertedLast(s: Span, spans: seq<Span>)
    requires spans == [] || !Precedes(s, spans[|spans| - 1])
    ensures InsertOrdered(s, spans) == spans + [s]
  {
  }

  lemma {:induction false} ApartIsSorted(spans: seq<Span>, k: nat)
    requires StrictlyApart(spans) && k <= |spans|
    ensures Sorted(spans[..k]) == spans[..k]
  {
    if k > 0 {
      ApartIsSorted(spans, k - 1);
      SortedNext(spans, k - 1);
      var front, s := spans[..k - 1], spans[k - 1];
      assert k > 1 ==> front[|front| - 1] == spans[k - 2] && spans[k - 2].endLine < s.startLine && Proper(spans[k - 2]);
      InsertedLast(s, front);
      assert front + [s] == spans[..k];
    }
  }

  lemma {:induction false} ApartIsKept(spans: seq<Span>, k: nat)
    requires StrictlyApart(spans) && k <= |spans|
    requires forall i :: 0 <= i < |spans| ==> !spans[i].open
    ensures Kept(spans[..k]) == spans[..k]
  {
    if k > 0 {
      ApartIsKept(spans, k - 1);
      KeptNext(spans, k - 1);
      var front, s := spans[..k - 1], spans[k - 1];
      assert k > 1 ==> front[|front| - 1] == spans[k - 2] && spans[k - 2].endLine < s.startLine;
      assert Closed(s) == s && Proper(s);
      assert Kept(spans[..k]) == front + [s];
      assert front + [s] == spans[..k];
    }
  }

  /** Spans that are closed and apart stay as they are. */
  lemma FinalizedApartStays(spans: seq<Span>)
    requires StrictlyApart(spans) && forall i :: 0 <= i < |spans| ==> !spans[i].open
    ensures Finalized(spans) == spans
  {
    ApartIsSorted(spans, |spans|);
    ApartIsKept(spans, |spans|);
    assert spans[..|spans|] == spans;
  }

  /** A second finalize changes nothing. */
  lemma FinalizedIdempotent(spans: seq<Span>)
    ensures Finalized(Finalized(spans)) == Finalized(spans)
  {
    FinalizedApart(spans);
    forall i | 0 <= i < |Finalized(spans)| ensures !Finalized(spans)[i].open {
      assert Finalized(spans)[i] in Finalized(spans);
    }
    FinalizedApartStays(Finalized(spans));
  }

  /** MRFoldClosedProjection while it is being filled; afterwards it is only shared as a constant. */
  class ProjectionBuilder {
    var spans: seq<Span>
    var hiddenLinePrefix: seq<nat>

    constructor ()
      ensures spans == [] && hiddenLinePrefix == []
    {
      spans, hiddenLinePrefix := [], [];
    }

    function Share(): Projection reads this { Projection(spans, hiddenLinePrefix) }

    method Finalize()
      modifies this
      ensures spans == Finalized(old(spans))
      ensures Share().Valid()
    {
      spans := Sorted(spans);
      Compact();
      FinalizedApart(old(spans));
      SumSizes();
    }

    method Compact()
      modifies this
      ensures spans == Kept(old(spans))
    {
      ghost var ordered := spans;
      var readIndex, writeIndex := 0, 0;
      while readIndex < |spans|
        invariant writeIndex <= readIndex <= |spans| == |ordered|
        invariant forall i :: readIndex <= i < |spans| ==> spans[i] == ordered[i]
        invariant spans[..writeIndex] == Kept(ordered[..readIndex])
      {
        var span := spans[readIndex].(open := false);
        KeptNext(ordered, readIndex);
        if span.endLine > span.startLine && !(writeIndex != 0 && span.startLine <= spans[writeIndex - 1].endLine) {
          spans := spans[writeIndex := span];
          assert spans[..writeIndex + 1] == spans[..writeIndex] + [span];
          writeIndex := writeIndex + 1;
        }
        readIndex := readIndex + 1;
      }
      assert ordered[..readIndex] == ordered;
      spans := spans[..writeIndex];
    }

    method SumSizes()
      requires StrictlyApart(spans)
      modifies `hiddenLinePrefix
      ensures Share().Valid()
    {
      hiddenLinePrefix := [0];
      var index := 0;
      while index < |spans|
        invariant index <= |spans|
        invariant |hiddenLinePrefix| == index + 1
        invariant forall k :: 0 <= k <= index ==> hiddenLinePrefix[k] == TotalSize(spans[..k])
      {
        TotalSizeNext(spans, index);
        hiddenLinePrefix := hiddenLinePrefix + [hiddenLinePrefix[index] + (spans[index].endLine - spans[index].startLine)];
        index := index + 1;
      }
    }
  }

  lemma KeptNext(ordered: seq<Span>, i: nat)
    requires i < |ordered|
    ensures var r, s := Kept(ordered[..i]), ordered[i];
      Kept(ordered[..i + 1]) ==
        if s.endLine <= s.startLine || (r != [] && s.startLine <= r[|r| - 1].endLine) then r else r + [Closed(s)]
  {
    assert ordered[..i + 1][..i] == ordered[..i];
  }

  lemma TotalSizeNext(spans: seq<Span>, i: nat)
    requires StrictlyApart(spans) && i < |spans|
    ensures TotalSize(spans[..i + 1]) == TotalSize(spans[..i]) + Size(spans[i])
  {
    assert spans[..i + 1][..i] == spans[..i];
  }

  datatype Projection = Projection(spans: seq<Span>, hiddenLinePrefix: seq<nat>) {
    ghost predicate Valid() {
      && StrictlyApart(spans)
      && |hiddenLinePrefix| == |spans| + 1
      && forall k :: 0 <= k <= |spans| ==> hiddenLinePrefix[k] == TotalSize(spans[..k])
    }

    function HiddenLineCount(): (r: nat)
      ensures Valid() ==> r == |Lines(Elements(spans))|
    {
      if hiddenLinePrefix == [] then 0
      else
        assert Valid() ==> |Lines(Elements(spans))| == hiddenLinePrefix[|spans|] by {
          if Valid() { TotalSizeCountsLines(spans); assert spans[..|spans|] == spans; }
        }
        hiddenLinePrefix[|hiddenLinePrefix| - 1]
    }

    /** Lines hidden by the spans that end before `documentLine`. */
    function HiddenLineCountBefore(documentLine: nat): (r: nat)
      requires Valid()
      ensures r == |Lines(Pick(Elements(spans), 0, documentLine - 1))|
    {
      var count := PartitionPoint(spans, (s: Span) => s.endLine < documentLine, 0, |spans|);
      SliceCounts(spans, 0, count);
      PickIsSlice(spans, 0, documentLine - 1, 0, count);
      if count < |hiddenLinePrefix| then hiddenLinePrefix[count] else HiddenLineCount()
    }

    /** Lines hidden by the spans that lie inside startLine..endLine. */
    function HiddenLineCountInRange(startLine: nat, endLine: nat): (r: nat)
      requires Valid()
      ensures r == if endLine <= startLine then 0 else |Lines(Pick(Elements(spans), startLine, endLine))|
    {
      if endLine <= startLine || spans == [] then
        assert Lines(Pick(Elements([]), startLine, endLine)) == {};
        0
      else
        var first := PartitionPoint(spans, (s: Span) => s.startLine < startLine, 0, |spans|);
        var last := PartitionPoint(spans, (s: Span) => s.endLine <= endLine, first, |spans|);
        SliceCounts(spans, first, last);
        PickIsSlice(spans, startLine, endLine, first, last);
        if last <= first || last >= |hiddenLinePrefix| then 0
        else hiddenLinePrefix[last] - hiddenLinePrefix[first]
    }

    function SpanStartingAt(documentLine: nat): (r: Option<Span>)
      requires Valid()
      ensures r.Some? ==> r.value in spans && r.value.startLine == documentLine
      ensures r.None? ==> forall s :: s in spans ==> s.startLine != documentLine
    {
      var found := PartitionPoint(spans, (s: Span) => s.startLine < documentLine, 0, |spans|);
      if found != |spans| && spans[found].startLine == documentLine then Some(spans[found]) else None
    }

    function SpanEndingAt(documentLine: nat): (r: Option<Span>)
      requires Valid()
      ensures r.Some? ==> r.value in spans && r.value.endLine == documentLine
      ensures r.None? ==> forall s :: s in spans ==> s.endLine != documentLine
    {
      var found := PartitionPoint(spans, (s: Span) => s.endLine < documentLine, 0, |spans|);
      if found != |spans| && spans[found].endLine == documentLine then Some(spans[found]) else None
    }

    function SpanContaining(documentLine: nat): (r: Option<Span>)
      requires Valid()
      ensures r.Some? ==> r.value in spans && Holds(r.value, documentLine)
      ensures r.None? ==> forall s :: s in spans ==> !Holds(s, documentLine)
    {
      var after := PartitionPoint(spans, (s: Span) => s.startLine <= documentLine, 0, |spans|);
      if after == 0 then None
      else if documentLine <= spans[after - 1].endLine then Some(spans[after - 1])
      else None
    }
  }

  lemma {:induction false} TotalSizeSplits(front: seq<Span>, back: seq<Span>)
    requires StrictlyApart(front + back) && StrictlyApart(front) && StrictlyApart(back)
    ensures TotalSize(front + back) == TotalSize(front) + TotalSize(back)
  {
    if back == [] {
      assert front + back == front;
    } else {
      var n := |back| - 1;
      var whole := front + back;
      assert whole[..|whole| - 1] == front + back[..n];
      TotalSizeSplits(front, back[..n]);
    }
  }

  /** A prefix-sum difference counts the lines hidden by a slice of the spans. */
  lemma SliceCounts(spans: seq<Span>, lo: nat, hi: nat)
    requires StrictlyApart(spans) && lo <= hi <= |spans|
    ensures TotalSize(spans[..lo]) <= TotalSize(spans[..hi])
    ensures |Lines(Elements(spans[lo..hi]))| == TotalSize(spans[..hi]) - TotalSize(spans[..lo])
  {
    assert spans[..hi] == spans[..lo] + spans[lo..hi];
    TotalSizeSplits(spans[..lo], spans[lo..hi]);
    TotalSizeCountsLines(spans[lo..hi]);
  }

  lemma PickIsSlice(spans: seq<Span>, startLine: nat, endLine: int, first: nat, last: nat)
    requires first <= last <= |spans|
    requires forall i :: 0 <= i < first ==> spans[i].startLine < startLine
    requires forall i :: first <= i < |spans| ==> startLine <= spans[i].startLine
    requires forall i :: first <= i < last ==> spans[i].endLine <= endLine
    requires forall i :: last <= i < |spans| ==> endLine < spans[i].endLine
    ensures Pick(Elements(spans), startLine, endLine) == Elements(spans[first..last])
  {
    forall s | s in Pick(Elements(spans), startLine, endLine) ensures s in spans[first..last] {
      var i :| 0 <= i < |spans| && spans[i] == s;
      assert s == spans[first..last][i - first];
    }
  }
}
