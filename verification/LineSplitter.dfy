/** Paths collected from a command's output while it arrives in pieces
    (dialogs/MRAcquireDialog.cpp). */
module LineSplitter {
  import opened Basics

  /** The lines that end with a newline, without it. */
  function Complete(s: string): seq<string>
    decreases |s|
  {
    var n := Newline(s);
    if n < 0 then [] else [s[..n]] + Complete(s[n + 1..])
  }

  /** What follows the last newline. */
  function Tail(s: string): (t: string)
    ensures '\n' !in t
    decreases |s|
  {
    var n := Newline(s);
    if n < 0 then s else Tail(s[n + 1..])
  }

  /** The first newline, or -1. */
  function Newline(s: string): (n: int)
    ensures n == -1 ==> '\n' !in s
    ensures n != -1 ==> 0 <= n < |s| && s[n] == '\n' && '\n' !in s[..n]
    decreases |s|
  {
    if s == "" then -1
    else if s[0] == '\n' then 0
    else
      var n := Newline(s[1..]);
      if n < 0 then -1 else
        assert s[..n + 1] == [s[0]] + s[1..][..n];
        n + 1
  }

  /** All lines of the whole output, the last with or without its newline. */
  function AllLines(s: string): seq<string> {
    Complete(s) + (if Tail(s) == "" then [] else [Tail(s)])
  }

  /** `resolve` stands for decoding a line and finding the readable file it names. */
  type Resolver = string -> Option<string>

  function Added(paths: seq<string>, line: string, resolve: Resolver): seq<string> {
    var path := resolve(line);
    if path.None? || path.value in paths then paths else paths + [path.value]
  }

  function AddedAll(paths: seq<string>, lines: seq<string>, resolve: Resolver): seq<string>
    decreases |lines|
  {
    if lines == [] then paths else AddedAll(Added(paths, lines[0], resolve), lines[1..], resolve)
  }

  // ------------------------------------------------------------------------------- splitting

  lemma {:induction false} NewlineAt(s: string, n: nat)
    requires n < |s| && s[n] == '\n' && '\n' !in s[..n]
    ensures Newline(s) == n
    decreases n
  {
    if n > 0 {
      assert s[0] == s[..n][0];
      assert s[..n] == [s[0]] + s[1..][..n - 1];
      NewlineAt(s[1..], n - 1);
    }
  }

  /** The text up to its first newline is the first line. */
  lemma FirstLine(line: string, rest: string)
    requires '\n' !in line
    ensures Complete(line + "\n" + rest) == [line] + Complete(rest) && Tail(line + "\n" + rest) == Tail(rest)
  {
    var s, n := line + "\n" + rest, |line|;
    assert s[..n] == line && s[n + 1..] == rest;
    NewlineAt(s, n);
  }

  lemma NoLine(s: string)
    requires '\n' !in s
    ensures Complete(s) == [] && Tail(s) == s
  {
  }

  /** Where a text is cut does not matter, if the tail is kept for the next piece. */
  lemma {:induction false} SplitJoined(a: string, b: string)
    ensures Complete(a + b) == Complete(a) + Complete(Tail(a) + b)
    ensures Tail(a + b) == Tail(Tail(a) + b)
    decreases |a|
  {
    var n := Newline(a);
    if n >= 0 {
      SplitJoined(a[n + 1..], b);
      LineInFront(a[..n], a[n + 1..], b);
      Parts(a, b, n);
    } else {
      NoLine(a);
      Nothing(Complete(a + b));
    }
  }

  lemma Nothing(lines: seq<string>)
    ensures [] + lines == lines
  {
  }

  lemma Regroup(a: seq<string>, b: seq<string>, c: seq<string>)
    ensures a + (b + c) == a + b + c
  {
  }

  lemma LineInFront(line: string, rest: string, b: string)
    requires '\n' !in line
    requires Complete(rest + b) == Complete(rest) + Complete(Tail(rest) + b) && Tail(rest + b) == Tail(Tail(rest) + b)
    ensures var a := line + "\n" + rest;
      && Complete(line + "\n" + (rest + b)) == Complete(a) + Complete(Tail(a) + b)
      && Tail(line + "\n" + (rest + b)) == Tail(Tail(a) + b)
  {
    FirstLine(line, rest);
    FirstLine(line, rest + b);
    Regroup([line], Complete(rest), Complete(Tail(rest) + b));
  }

  lemma Parts(a: string, b: string, n: nat)
    requires n < |a| && a[n] == '\n'
    ensures a == a[..n] + "\n" + a[n + 1..] && a + b == a[..n] + "\n" + (a[n + 1..] + b)
  {
  }

  lemma {:induction false} AddedAllJoined(paths: seq<string>, a: seq<string>, b: seq<string>, resolve: Resolver)
    ensures AddedAll(paths, a + b, resolve) == AddedAll(AddedAll(paths, a, resolve), b, resolve)
    decreases |a|
  {
    if a == [] {
      assert a + b == b;
    } else {
      assert (a + b)[0] == a[0] && (a + b)[1..] == a[1..] + b;
      AddedAllJoined(Added(paths, a[0], resolve), a[1..], b, resolve);
    }
  }

  // ----------------------------------------------------------------- the list of first finds

  ghost predicate Distinct(paths: seq<string>) {
    forall i, j | 0 <= i < j < |paths| :: paths[i] != paths[j]
  }

  ghost predicate Resolves(lines: seq<string>, path: string, resolve: Resolver) {
    exists k :: 0 <= k < |lines| && resolve(lines[k]) == Some(path)
  }

  /** The collected list has every path once, those that were there and those the lines
      name, and grows only at its end: each path stands where it was first seen. */
  lemma {:induction false} FirstFinds(paths: seq<string>, lines: seq<string>, resolve: Resolver)
    requires Distinct(paths)
    ensures Distinct(AddedAll(paths, lines, resolve)) && paths <= AddedAll(paths, lines, resolve)
    ensures forall p :: p in AddedAll(paths, lines, resolve) <==> p in paths || Resolves(lines, p, resolve)
    decreases |lines|
  {
    if lines != [] {
      var next := Added(paths, lines[0], resolve);
      FirstFinds(next, lines[1..], resolve);
      forall p ensures p in AddedAll(paths, lines, resolve) <==> p in paths || Resolves(lines, p, resolve) {
        ResolvesFirst(lines, p, resolve);
      }
    }
  }

  lemma ResolvesFirst(lines: seq<string>, p: string, resolve: Resolver)
    requires lines != []
    ensures Resolves(lines, p, resolve) <==> resolve(lines[0]) == Some(p) || Resolves(lines[1..], p, resolve)
  {
    if k :| 0 <= k < |lines| && resolve(lines[k]) == Some(p) {
      assert k > 0 ==> resolve(lines[1..][k - 1]) == Some(p);
    }
    if k :| 0 <= k < |lines[1..]| && resolve(lines[1..][k]) == Some(p) {
      assert resolve(lines[k + 1]) == Some(p);
    }
  }

  // ------------------------------------------------------------------------------ the dialog

  /** `end` is the first newline from `from` on, or -1. */
  ghost predicate NextNewline(s: string, from: nat, end: int)
    requires from <= |s|
  {
    if end < 0 then end == -1 && forall k | from <= k < |s| :: s[k] != '\n'
    else from <= end < |s| && s[end] == '\n' && forall k | from <= k < end :: s[k] != '\n'
  }

  ghost predicate SameMembers(seen: set<string>, paths: seq<string>) {
    forall p :: p in seen <==> p in paths
  }

  /** The lines with their newlines, one after the other. */
  function Joined(lines: seq<string>): string {
    if lines == [] then "" else Joined(lines[..|lines| - 1]) + lines[|lines| - 1] + "\n"
  }

  /** The first `n` letters of the text are the given lines. */
  ghost predicate Taken(text: string, n: nat, lines: seq<string>) {
    n <= |text| && text[..n] == Joined(lines) && forall k | 0 <= k < |lines| :: '\n' !in lines[k]
  }

  lemma LineTaken(text: string, from: nat, end: nat, lines: seq<string>)
    requires Taken(text, from, lines) && NextNewline(text, from, end)
    ensures Taken(text, end + 1, lines + [text[from..end]])
  {
    var next := lines + [text[from..end]];
    assert next[..|lines|] == lines;
    assert text[..end + 1] == text[..from] + text[from..end] + "\n";
  }

  lemma AllTaken(text: string, from: nat, lines: seq<string>)
    requires Taken(text, from, lines) && NextNewline(text, from, -1)
    ensures lines == Complete(text) && text[from..] == Tail(text)
  {
    JoinedLines(lines, text[from..]);
    NoLine(text[from..]);
    assert text == text[..from] + text[from..];
  }

  lemma {:induction false} JoinedLines(lines: seq<string>, rest: string)
    requires forall k | 0 <= k < |lines| :: '\n' !in lines[k]
    ensures Complete(Joined(lines) + rest) == lines + Complete(rest) && Tail(Joined(lines) + rest) == Tail(rest)
    decreases |lines|
  {
    if lines == [] {
      assert Joined(lines) + rest == rest;
    } else {
      var front, line := lines[..|lines| - 1], lines[|lines| - 1];
      assert Joined(lines) + rest == Joined(front) + (line + "\n" + rest);
      JoinedLines(front, line + "\n" + rest);
      FirstLine(line, rest);
      Regroup(front, [line], Complete(rest));
      assert front + [line] == lines;
    }
  }

  lemma AddedLast(paths: seq<string>, lines: seq<string>, line: string, resolve: Resolver)
    ensures AddedAll(paths, lines + [line], resolve) == Added(AddedAll(paths, lines, resolve), line, resolve)
  {
    AddedAllJoined(paths, lines, [line], resolve);
    assert [line][1..] == [];
  }

  class AcquireOutput {
    const resolve: Resolver
    var stdoutTail: string
    var seenPaths: set<string>
    var resolvedPaths: seq<string>

    /** Between calls the tail holds no newline. */
    ghost predicate Valid()
      reads this
    {
      '\n' !in stdoutTail && Distinct(resolvedPaths) && SameMembers(seenPaths, resolvedPaths)
    }

    constructor (resolve: Resolver)
      ensures Valid() && stdoutTail == "" && resolvedPaths == [] && this.resolve == resolve
    {
      this.resolve, stdoutTail, seenPaths, resolvedPaths := resolve, "", {}, [];
    }

    method AddResolvedPath(line: string)
      requires SameMembers(seenPaths, resolvedPaths)
      modifies this`seenPaths, this`resolvedPaths
      ensures resolvedPaths == Added(old(resolvedPaths), line, resolve)
      ensures SameMembers(seenPaths, resolvedPaths)
    {
      var path := resolve(line);
      if path.Some? && path.value !in seenPaths {
        seenPaths := seenPaths + {path.value};
        resolvedPaths := resolvedPaths + [path.value];
      }
    }

    /** `std::string::find`. */
    method FindNewline(s: string, from: nat) returns (end: int)
      requires from <= |s|
      ensures NextNewline(s, from, end)
    {
      end := from;
      while end < |s| && s[end] != '\n'
        invariant from <= end <= |s| && forall k | from <= k < end :: s[k] != '\n'
      {
        end := end + 1;
      }
      if end == |s| { end := -1; }
    }

    /** The loop of `acceptAcquireOutput`: all complete lines of the tail. */
    method TakeLines(text: string) returns (consumed: nat, ghost taken: seq<string>)
      requires SameMembers(seenPaths, resolvedPaths)
      modifies this`seenPaths, this`resolvedPaths
      ensures Taken(text, consumed, taken) && NextNewline(text, consumed, -1)
      ensures SameMembers(seenPaths, resolvedPaths) && resolvedPaths == AddedAll(old(resolvedPaths), taken, resolve)
    {
      consumed, taken := 0, [];
      var end := FindNewline(text, 0);
      while end >= 0
        invariant Taken(text, consumed, taken) && NextNewline(text, consumed, end)
        invariant SameMembers(seenPaths, resolvedPaths) && resolvedPaths == AddedAll(old(resolvedPaths), taken, resolve)
        decreases |text| - consumed
      {
        LineTaken(text, consumed, end, taken);
        AddedLast(old(resolvedPaths), taken, text[consumed..end], resolve);
        AddResolvedPath(text[consumed..end]);
        taken := taken + [text[consumed..end]];
        consumed := end + 1;
        end := FindNewline(text, consumed);
      }
    }

    /** `acceptAcquireOutput`. */
    method Accept(output: string, flush: bool)
      requires Valid()
      modifies this`stdoutTail, this`seenPaths, this`resolvedPaths
      ensures Valid()
      ensures stdoutTail == if flush then "" else Tail(old(stdoutTail) + output)
      ensures resolvedPaths == AddedAll(old(resolvedPaths),
        if flush then AllLines(old(stdoutTail) + output) else Complete(old(stdoutTail) + output), resolve)
    {
      ghost var paths, text := resolvedPaths, stdoutTail + output;
      FirstFinds(paths, if flush then AllLines(text) else Complete(text), resolve);
      AllLinesAdded(paths, text, resolve);
      stdoutTail := stdoutTail + output;
      var consumed, taken := TakeLines(stdoutTail);
      AllTaken(text, consumed, taken);
      if flush && consumed < |stdoutTail| { AddResolvedPath(stdoutTail[consumed..]); }
      if consumed != 0 { stdoutTail := stdoutTail[consumed..]; }
      if flush { stdoutTail := ""; }
    }
  }

  lemma AllLinesAdded(paths: seq<string>, text: string, resolve: Resolver)
    ensures AddedAll(paths, AllLines(text), resolve)
         == if Tail(text) == "" then AddedAll(paths, Complete(text), resolve)
            else Added(AddedAll(paths, Complete(text), resolve), Tail(text), resolve)
  {
    if Tail(text) == "" { assert AllLines(text) == Complete(text); } else { AddedLast(paths, Complete(text), Tail(text), resolve); }
  }

  // --------------------------------------------------------------------------------- any chunks

  function Concat(chunks: seq<string>): string {
    if chunks == [] then "" else Concat(chunks[..|chunks| - 1]) + chunks[|chunks| - 1]
  }

  /** However the output is cut into pieces, after the final flush the list is the one for
      the whole output. */
  method Collect(chunks: seq<string>, resolve: Resolver) returns (paths: seq<string>)
    ensures paths == AddedAll([], AllLines(Concat(chunks)), resolve)
  {
    var dialog := new AcquireOutput(resolve);
    for k := 0 to |chunks|
      invariant dialog.Valid() && dialog.resolve == resolve
      invariant dialog.stdoutTail == Tail(Concat(chunks[..k]))
      invariant dialog.resolvedPaths == AddedAll([], Complete(Concat(chunks[..k])), resolve)
    {
      var a, b := Concat(chunks[..k]), chunks[k];
      assert chunks[..k + 1][..k] == chunks[..k];
      SplitJoined(a, b);
      AddedAllJoined([], Complete(a), Complete(Tail(a) + b), resolve);
      dialog.Accept(b, false);
    }
    assert chunks[..|chunks|] == chunks;
    dialog.Accept("", true);
    Flushed(Concat(chunks), resolve);
    paths := dialog.resolvedPaths;
  }

  lemma Flushed(text: string, resolve: Resolver)
    ensures AddedAll(AddedAll([], Complete(text), resolve), AllLines(Tail(text) + ""), resolve) == AddedAll([], AllLines(text), resolve)
  {
    var t := Tail(text);
    assert t + "" == t;
    NoLine(t);
    AddedAllJoined([], Complete(text), if t == "" then [] else [t], resolve);
    assert AllLines(t) == if t == "" then [] else [t];
  }
}
