/** The line ranges whose syntax colours are up to date
    (derivedstate/MRSyntaxDerivedState.cpp). */
module WarmRanges {

  /** Lines from `first` up to but not including `end`. */
  datatype Range = Range(first: nat, end: nat)

  predicate In(r: Range, line: nat) { r.first <= line < r.end }

  ghost predicate Holds(ranges: seq<Range>, line: nat) {
    exists i :: 0 <= i < |ranges| && In(ranges[i], line)
  }

  /** Sorted, none empty, and no two touch. */
  ghost predicate Normal(ranges: seq<Range>) {
    && (forall i | 0 <= i < |ranges| :: ranges[i].first < ranges[i].end)
    && (forall i, j | 0 <= i < j < |ranges| :: ranges[i].end < ranges[j].first)
  }

  function Lines(r: Range): (lines: set<nat>)
    ensures forall l: nat {:trigger l in lines} :: l in lines <==> In(r, l)
  {
    set l: nat | r.first <= l < r.end && In(r, l)
  }

  // ------------------------------------------------------------------------- what it means

  /** PlainText. */
  const NO_LANGUAGE := 0

  /** Which lines are warm, and of which document in which language. */
  datatype Warm = Warm(document: nat, language: int, lines: set<nat>)
  {
    predicate Owns(document: nat, language: int) { this.document == document && this.language == language }
  }

  datatype Event =
    | Remember(document: nat, language: int, range: Range)
    | InvalidateFrom(document: nat, language: int, line: nat)
    | Clear

  const COLD := Warm(0, NO_LANGUAGE, {})

  function After(w: Warm, e: Event): Warm {
    match e
    case Remember(document, language, r) =>
      if r.end <= r.first then w
      else Warm(document, language, (if w.Owns(document, language) then w.lines else {}) + Lines(r))
    case InvalidateFrom(document, language, line) =>
      if w.Owns(document, language) then w.(lines := set l | l in w.lines && l < line) else COLD
    case Clear => COLD
  }

  function Run(events: seq<Event>): Warm {
    if events == [] then COLD else After(Run(events[..|events| - 1]), events[|events| - 1])
  }

  predicate Remembers(e: Event, document: nat, language: int, line: nat) {
    e.Remember? && e.document == document && e.language == language && In(e.range, line)
  }

  /** The event takes a line away: it clears all, cuts the lines from here on, or is about
      another document or language. */
  predicate Forgets(e: Event, document: nat, language: int, line: nat) {
    match e
    case Remember(d, l, r) => r.first < r.end && !(d == document && l == language)
    case InvalidateFrom(d, l, from) => !(d == document && l == language) || from <= line
    case Clear => true
  }

  /** Event `i` remembers the line and none after it forgets it. */
  ghost predicate RememberedAt(events: seq<Event>, i: nat, document: nat, language: int, line: nat) {
    && i < |events| && Remembers(events[i], document, language, line)
    && forall j | i < j < |events| :: !Forgets(events[j], document, language, line)
  }

  /** After any run a line is warm for a document and language exactly if it was remembered
      for them and not forgotten since. */
  lemma {:induction false} WarmIffRemembered(events: seq<Event>, document: nat, language: int, line: nat)
    ensures Run(events).Owns(document, language) && line in Run(events).lines
       <==> exists i: nat :: RememberedAt(events, i, document, language, line)
    decreases |events|
  {
    if events != [] {
      var n := |events| - 1;
      var front := events[..n];
      WarmIffRemembered(front, document, language, line);
      if Remembers(events[n], document, language, line) {
        assert RememberedAt(events, n, document, language, line);
      } else if Forgets(events[n], document, language, line) {
        assert forall i: nat :: RememberedAt(events, i, document, language, line) ==> i == n;
      } else {
        forall i: nat ensures RememberedAt(front, i, document, language, line) <==> RememberedAt(events, i, document, language, line) {
          assert forall j | 0 <= j < n :: front[j] == events[j];
        }
      }
    }
  }

  // ------------------------------------------------------------------------- the range list

  predicate Before(a: Range, b: Range) {
    a.first < b.first || (a.first == b.first && a.end <= b.end)
  }

  ghost predicate Sorted(ranges: seq<Range>) {
    forall i, j | 0 <= i < j < |ranges| :: Before(ranges[i], ranges[j])
  }

  ghost predicate SameLines(a: seq<Range>, b: seq<Range>) {
    forall l: nat :: Holds(a, l) <==> Holds(b, l)
  }

  /** The sort of `normalizeRanges`, range by range. */
  method SortRanges(ranges: seq<Range>) returns (sorted: seq<Range>)
    ensures Sorted(sorted) && SameLines(sorted, ranges)
  {
    sorted := [];
    for i := 0 to |ranges|
      invariant Sorted(sorted) && SameLines(sorted, ranges[..i])
    {
      var k := |sorted|;
      while k > 0 && !Before(sorted[k - 1], ranges[i])
        invariant 0 <= k <= |sorted| && forall j | k <= j < |sorted| :: Before(ranges[i], sorted[j])
      {
        k := k - 1;
      }
      InsertedLines(sorted, k, ranges[i], ranges[..i], ranges[..i + 1]);
      sorted := sorted[..k] + [ranges[i]] + sorted[k..];
    }
    assert ranges[..|ranges|] == ranges;
  }

  lemma InsertedLines(s: seq<Range>, k: nat, r: Range, a: seq<Range>, b: seq<Range>)
    requires k <= |s| && SameLines(s, a) && b == a + [r]
    ensures SameLines(s[..k] + [r] + s[k..], b)
  {
    var t := s[..k] + [r] + s[k..];
    forall l: nat ensures Holds(t, l) <==> Holds(b, l) {
      HoldsAppended(a, r, l);
      HoldsInserted(s, k, r, l);
    }
  }

  lemma HoldsAppended(a: seq<Range>, r: Range, l: nat)
    ensures Holds(a + [r], l) <==> Holds(a, l) || In(r, l)
  {
    var b := a + [r];
    if i :| 0 <= i < |a| && In(a[i], l) { assert In(b[i], l); }
    if In(r, l) { assert In(b[|a|], l); }
  }

  lemma HoldsInserted(s: seq<Range>, k: nat, r: Range, l: nat)
    requires k <= |s|
    ensures Holds(s[..k] + [r] + s[k..], l) <==> Holds(s, l) || In(r, l)
  {
    var t := s[..k] + [r] + s[k..];
    if i :| 0 <= i < |s| && In(s[i], l) { assert In(t[if i < k then i else i + 1], l); }
    if In(r, l) { assert In(t[k], l); }
    if i :| 0 <= i < |t| && In(t[i], l) {
      if i < k { assert In(s[i], l); } else if i > k { assert In(s[i - 1], l); }
    }
  }

  /** One step of the merging loop. */
  function Merged(merged: seq<Range>, item: Range): seq<Range> {
    if item.end <= item.first then merged
    else if merged == [] || item.first > merged[|merged| - 1].end then merged + [item]
    else if item.end > merged[|merged| - 1].end then merged[|merged| - 1 := Range(merged[|merged| - 1].first, item.end)]
    else merged
  }

  /** An item that starts no earlier than the last range joins it or follows it. */
  lemma MergedNormal(merged: seq<Range>, item: Range)
    requires Normal(merged) && (merged != [] ==> merged[|merged| - 1].first <= item.first)
    ensures Normal(Merged(merged, item))
    ensures Merged(merged, item) != [] ==> Merged(merged, item)[|Merged(merged, item)| - 1].first <= item.first
  {
  }

  lemma MergedLines(merged: seq<Range>, item: Range, l: nat)
    requires Normal(merged) && (merged != [] ==> merged[|merged| - 1].first <= item.first)
    ensures Holds(Merged(merged, item), l) <==> Holds(merged, l) || In(item, l)
  {
    var next, n := Merged(merged, item), |merged| - 1;
    HoldsAppended(merged, item, l);
    if next != merged && next != merged + [item] {
      if i :| 0 <= i < |merged| && In(merged[i], l) { assert In(next[i], l); }
      if i :| 0 <= i < |next| && In(next[i], l) { assert i < n ==> In(merged[i], l); }
      assert In(next[n], l) <==> In(merged[n], l) || In(item, l);
    } else if next == merged && In(item, l) {
      assert In(merged[n], l);
    }
  }

  method NormalizeRanges(ranges: seq<Range>) returns (merged: seq<Range>)
    ensures Normal(merged) && SameLines(merged, ranges)
  {
    var sorted := SortRanges(ranges);
    merged := [];
    for i := 0 to |sorted|
      invariant Normal(merged) && SameLines(merged, sorted[..i])
      invariant forall k | i <= k < |sorted| && merged != [] :: merged[|merged| - 1].first <= sorted[k].first
    {
      var item := sorted[i];
      MergedNormal(merged, item);
      forall l: nat ensures Holds(Merged(merged, item), l) <==> Holds(sorted[..i + 1], l) {
        MergedLines(merged, item, l);
        HoldsAppended(sorted[..i], item, l);
        assert sorted[..i + 1] == sorted[..i] + [item];
      }
      if item.end > item.first {
        if merged == [] || item.first > merged[|merged| - 1].end {
          merged := merged + [item];
        } else if item.end > merged[|merged| - 1].end {
          merged := merged[|merged| - 1 := Range(merged[|merged| - 1].first, item.end)];
        }
      }
    }
    assert sorted[..|sorted|] == sorted;
  }

  /** `invalidateValidRangesFrom`: the lines before `line` stay. */
  method CutFrom(ranges: seq<Range>, line: nat) returns (kept: seq<Range>)
    requires Normal(ranges)
    ensures Normal(kept) && forall l: nat :: Holds(kept, l) <==> Holds(ranges, l) && l < line
  {
    kept := [];
    for i := 0 to |ranges|
      invariant Normal(kept) && forall l: nat :: Holds(kept, l) <==> Holds(ranges[..i], l) && l < line
      invariant forall k | i <= k < |ranges| && kept != [] :: kept[|kept| - 1].end < ranges[k].first
    {
      var r := ranges[i];
      var part := Range(r.first, if r.end <= line then r.end else line);
      forall l: nat ensures Holds(kept + [part], l) <==> Holds(ranges[..i + 1], l) && l < line {
        HoldsAppended(kept, part, l);
        HoldsAppended(ranges[..i], r, l);
        assert ranges[..i + 1] == ranges[..i] + [r];
      }
      if r.end <= line || r.first < line {
        kept := kept + [part];
      } else {
        forall l: nat ensures Holds(kept, l) <==> Holds(ranges[..i + 1], l) && l < line {
          HoldsAppended(kept, part, l);
        }
      }
    }
    assert ranges[..|ranges|] == ranges;
  }

  /** `validRangeCovered`. */
  method Covered(ranges: seq<Range>, startLine: nat, endLine: nat) returns (covered: bool)
    requires Normal(ranges)
    ensures covered <==> forall l: nat | In(Range(startLine, endLine), l) :: Holds(ranges, l)
  {
    if endLine <= startLine { return true; }
    var until := startLine;
    for i := 0 to |ranges|
      invariant startLine <= until < endLine
      invariant forall l: nat | In(Range(startLine, until), l) :: Holds(ranges, l)
      invariant forall k | 0 <= k < i :: ranges[k].end <= until
    {
      if ranges[i].end <= until { continue; }
      if ranges[i].first > until {
        assert In(Range(startLine, endLine), until);
        assert forall k | 0 <= k < |ranges| :: !In(ranges[k], until);
        return false;
      }
      forall l: nat | In(Range(startLine, ranges[i].end), l) ensures Holds(ranges, l) {
        assert In(Range(startLine, until), l) || In(ranges[i], l);
      }
      until := if ranges[i].end > until then ranges[i].end else until;
      if until >= endLine {
        assert forall l: nat | In(Range(startLine, endLine), l) :: In(Range(startLine, until), l);
        return true;
      }
    }
    assert In(Range(startLine, endLine), until) && !Holds(ranges, until);
    return until >= endLine;
  }

  /** The part of `MRSyntaxDerivedState` that keeps the warm lines. */
  class SyntaxDerivedState {
    var documentId: nat
    var language: int
    var validRanges: seq<Range>
    ghost var warm: Warm

    /** The list is normal and holds exactly the warm lines. */
    ghost predicate Valid()
      reads this
    {
      && warm.Owns(documentId, language) && Normal(validRanges)
      && forall l: nat :: l in warm.lines <==> Holds(validRanges, l)
    }

    constructor ()
      ensures Valid() && warm == COLD
    {
      documentId, language, validRanges, warm := 0, NO_LANGUAGE, [], COLD;
    }

    method ClearWarmedLineRanges()
      modifies this
      ensures Valid() && warm == After(old(warm), Clear)
    {
      documentId, language, validRanges, warm := 0, NO_LANGUAGE, [], COLD;
    }

    method EnsureOwner(document: nat, lang: int)
      requires Valid()
      modifies this
      ensures Valid() && warm == if old(warm).Owns(document, lang) then old(warm) else Warm(document, lang, {})
    {
      if documentId == document && language == lang { return; }
      documentId, language, validRanges, warm := document, lang, [], Warm(document, lang, {});
    }

    method RememberWarmedLineRange(document: nat, lang: int, startLine: nat, endLine: nat)
      requires Valid()
      modifies this
      ensures Valid() && warm == After(old(warm), Remember(document, lang, Range(startLine, endLine)))
    {
      if endLine <= startLine { return; }
      EnsureOwner(document, lang);
      var added := Range(startLine, endLine);
      forall l: nat ensures Holds(validRanges + [added], l) <==> l in warm.lines + Lines(added) {
        HoldsAppended(validRanges, added, l);
      }
      validRanges := NormalizeRanges(validRanges + [added]);
      warm := warm.(lines := warm.lines + Lines(added));
    }

    method InvalidateWarmedLineRangesFrom(document: nat, lang: int, line: nat)
      requires Valid()
      modifies this
      ensures Valid() && warm == After(old(warm), InvalidateFrom(document, lang, line))
    {
      if !(documentId == document && language == lang) {
        ClearWarmedLineRanges();
        return;
      }
      validRanges := CutFrom(validRanges, line);
      warm := After(warm, InvalidateFrom(document, lang, line));
    }

    /** An empty range counts as covered for the owner, and for nobody else. */
    method WarmedLineRangeCovered(document: nat, lang: int, startLine: nat, endLine: nat) returns (covered: bool)
      requires Valid()
      ensures covered <==> warm.Owns(document, lang) && Lines(Range(startLine, endLine)) <= warm.lines
    {
      if !(documentId == document && language == lang) { return false; }
      covered := Covered(validRanges, startLine, endLine);
    }
  }

  /** Any run of calls on a fresh object, and a question at the end: a range that is not
      empty is covered only if each of its lines was remembered for that document and
      language and has not been forgotten since. */
  method CoveredAfterRun(events: seq<Event>, document: nat, lang: int, startLine: nat, endLine: nat) returns (covered: bool)
    ensures startLine < endLine ==>
      (covered <==> forall l: nat | In(Range(startLine, endLine), l) ::
         exists i: nat :: RememberedAt(events, i, document, lang, l))
  {
    var state := new SyntaxDerivedState();
    for k := 0 to |events|
      invariant state.Valid() && state.warm == Run(events[..k])
    {
      assert events[..k + 1][..k] == events[..k];
      match events[k]
      case Remember(d, l, r) => state.RememberWarmedLineRange(d, l, r.first, r.end);
      case InvalidateFrom(d, l, line) => state.InvalidateWarmedLineRangesFrom(d, l, line);
      case Clear => state.ClearWarmedLineRanges();
    }
    assert events[..|events|] == events;
    covered := state.WarmedLineRangeCovered(document, lang, startLine, endLine);
    forall l: nat | In(Range(startLine, endLine), l)
      ensures state.warm.Owns(document, lang) && l in state.warm.lines <==> exists i: nat :: RememberedAt(events, i, document, lang, l)
    {
      WarmIffRemembered(events, document, lang, l);
    }
    assert startLine < endLine ==> In(Range(startLine, endLine), startLine);
  }
}
