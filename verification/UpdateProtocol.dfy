/** The update package on the wire: a magic word, eight lengths, eight parts
    (app/MRUpdateInstall.cpp). */
module UpdateProtocol {
  import opened Basics

  // ---------------------------------------------------------------------------- the lengths

  /** `value >> (8 * i)` and `value << (8 * i)`. */
  function RightShift(value: nat, i: nat): nat { if i == 0 then value else RightShift(value, i - 1) / 256 }
  function LeftShift(value: nat, i: nat): nat { if i == 0 then value else 256 * LeftShift(value, i - 1) }

  /** The `n` low bytes of `value`, lowest first. */
  function Encoded(value: nat, n: nat): (s: seq<Byte>)
    ensures |s| == n
  {
    if n == 0 then [] else [value % 256] + Encoded(value / 256, n - 1)
  }

  function Decoded(s: seq<Byte>): nat {
    if s == [] then 0 else s[0] + 256 * Decoded(s[1..])
  }

  lemma {:induction false} EncodeDecoded(s: seq<Byte>)
    ensures Encoded(Decoded(s), |s|) == s && Decoded(s) < LeftShift(1, |s|)
    decreases |s|
  {
    if s != [] {
      EncodeDecoded(s[1..]);
      assert Decoded(s) % 256 == s[0] && Decoded(s) / 256 == Decoded(s[1..]);
      assert s == [s[0]] + s[1..];
    }
  }

  lemma {:induction false} DecodeEncoded(value: nat, n: nat)
    requires value < LeftShift(1, n)
    ensures Decoded(Encoded(value, n)) == value
    decreases n
  {
    if n > 0 {
      assert value / 256 < LeftShift(1, n - 1);
      DecodeEncoded(value / 256, n - 1);
      assert Encoded(value, n)[1..] == Encoded(value / 256, n - 1);
    }
  }

  lemma {:induction false} LeftShiftAdds(a: nat, b: nat, i: nat)
    ensures LeftShift(a + b, i) == LeftShift(a, i) + LeftShift(b, i)
    ensures LeftShift(256 * a, i) == LeftShift(a, i + 1)
  {
    if i > 0 { LeftShiftAdds(a, b, i - 1); }
  }

  lemma EncodedNext(output: seq<Byte>, value: nat, n: nat)
    requires n > 0
    ensures output + Encoded(value, n) == output + [value % 256] + Encoded(value / 256, n - 1)
  {
  }

  /** `encodeUint64`. */
  method EncodeUint64(value: nat) returns (output: seq<Byte>)
    ensures output == Encoded(value, 8)
  {
    output := [];
    for i := 0 to 8
      invariant Encoded(value, 8) == output + Encoded(RightShift(value, i), 8 - i)
    {
      EncodedNext(output, RightShift(value, i), 8 - i);
      output := output + [RightShift(value, i) % 256];
    }
  }

  /** `decodeUint64`; the bytes do not overlap, so joining their bits adds them. */
  method DecodeUint64(input: seq<Byte>) returns (value: nat)
    requires |input| == 8
    ensures value == Decoded(input)
  {
    value := 0;
    assert input[0..] == input;
    for i := 0 to 8
      invariant Decoded(input) == value + LeftShift(Decoded(input[i..]), i)
    {
      LeftShiftAdds(input[i], 256 * Decoded(input[i + 1..]), i);
      LeftShiftAdds(Decoded(input[i + 1..]), 0, i);
      assert input[i..][1..] == input[i + 1..];
      value := value + LeftShift(input[i], i);
    }
  }

  // ---------------------------------------------------------------------------- the package

  /** "MRUPD01". */
  const MAGIC: seq<Byte> := [77, 82, 85, 80, 68, 48, 49]

  /** Manifest, signature and the six files, in this order, none of them empty. */
  const LIMITS: seq<nat> := [128 * 1024, 1024, 256 * 1024 * 1024, 64 * 1024 * 1024, 256 * 1024 * 1024,
                             256 * 1024 * 1024, 256 * 1024 * 1024, 4 * 1024 * 1024]

  type Part = seq<Byte>

  ghost predicate Fits(parts: seq<Part>, limits: seq<nat>) {
    |parts| == |limits| && forall i | 0 <= i < |parts| :: 0 < |parts[i]| <= limits[i]
  }

  function Sizes(parts: seq<Part>): (lengths: seq<nat>)
    ensures |lengths| == |parts| && forall i | 0 <= i < |parts| :: lengths[i] == |parts[i]|
  {
    seq(|parts|, i requires 0 <= i < |parts| => |parts[i]|)
  }

  function Header(lengths: seq<nat>): (s: seq<Byte>)
    ensures |s| == 8 * |lengths|
  {
    if lengths == [] then [] else Encoded(lengths[0], 8) + Header(lengths[1..])
  }

  function Body(parts: seq<Part>): seq<Byte> {
    if parts == [] then [] else parts[0] + Body(parts[1..])
  }

  /** What the writer sends. */
  function Written(parts: seq<Part>): seq<Byte> {
    MAGIC + Header(Sizes(parts)) + Body(parts)
  }

  // ------------------------------------------------------------------------ what is read back

  function Prepend(parts: seq<Part>, r: Option<seq<Part>>): Option<seq<Part>> {
    if r.None? then None else Some(parts + r.value)
  }

  /** The body cut by the given lengths: all within their limits, nothing left over. */
  function Split(s: seq<Byte>, lengths: seq<nat>, limits: seq<nat>): Option<seq<Part>>
    requires |lengths| == |limits|
    decreases |lengths|
  {
    if lengths == [] then if s == [] then Some([]) else None
    else if lengths[0] == 0 || lengths[0] > limits[0] || lengths[0] > |s| then None
    else Prepend([s[..lengths[0]]], Split(s[lengths[0]..], lengths[1..], limits[1..]))
  }

  lemma PrependNothing(r: Option<seq<Part>>)
    ensures Prepend([], r) == r
  {
    if r.Some? { assert [] + r.value == r.value; }
  }

  lemma SplitNext(bytes: seq<Byte>, lengths: seq<nat>, limits: seq<nat>, i: nat, pos: nat, parts: seq<Part>)
    requires i < |lengths| == |limits| && pos <= |bytes|
    ensures var l := lengths[i];
      Prepend(parts, Split(bytes[pos..], lengths[i..], limits[i..])) ==
      if l == 0 || l > limits[i] || pos + l > |bytes| then None
      else Prepend(parts + [bytes[pos..pos + l]], Split(bytes[pos + l..], lengths[i + 1..], limits[i + 1..]))
  {
    var l := lengths[i];
    assert lengths[i..][0] == l && limits[i..][0] == limits[i] && |bytes[pos..]| == |bytes| - pos;
    if !(l == 0 || l > limits[i] || pos + l > |bytes|) {
      assert Split(bytes[pos..], lengths[i..], limits[i..])
          == Prepend([bytes[pos..][..l]], Split(bytes[pos..][l..], lengths[i..][1..], limits[i..][1..]));
      assert bytes[pos..][..l] == bytes[pos..pos + l] && bytes[pos..][l..] == bytes[pos + l..];
      assert lengths[i..][1..] == lengths[i + 1..] && limits[i..][1..] == limits[i + 1..];
      var r := Split(bytes[pos + l..], lengths[i + 1..], limits[i + 1..]);
      if r.Some? { assert parts + ([bytes[pos..pos + l]] + r.value) == parts + [bytes[pos..pos + l]] + r.value; }
    }
  }

  /** The first `n` lengths of a header. */
  function Lengths(s: seq<Byte>, n: nat): (lengths: seq<nat>)
    requires 8 * n <= |s|
    ensures |lengths| == n
  {
    if n == 0 then [] else [Decoded(s[..8])] + Lengths(s[8..], n - 1)
  }

  /** What is left to read of the header after `lengths`. */
  ghost predicate HeaderLeft(bytes: seq<Byte>, lengths: seq<nat>, pos: nat, k: nat, n: nat)
    requires k <= n && pos == 7 + 8 * k
  {
    7 + 8 * n <= |bytes| ==> Lengths(bytes[7..], n) == lengths + Lengths(bytes[pos..], n - k)
  }

  lemma HeaderRead(bytes: seq<Byte>, lengths: seq<nat>, pos: nat, k: nat, n: nat)
    requires k < n && pos == 7 + 8 * k && pos + 8 <= |bytes| && HeaderLeft(bytes, lengths, pos, k, n)
    ensures HeaderLeft(bytes, lengths + [Decoded(bytes[pos..pos + 8])], pos + 8, k + 1, n)
  {
    if 7 + 8 * n <= |bytes| { LengthsNext(bytes, pos, n - k); }
  }

  lemma LengthsNext(bytes: seq<Byte>, pos: nat, n: nat)
    requires n > 0 && pos + 8 * n <= |bytes|
    ensures Lengths(bytes[pos..], n) == [Decoded(bytes[pos..pos + 8])] + Lengths(bytes[pos + 8..], n - 1)
  {
    assert bytes[pos..][..8] == bytes[pos..pos + 8] && bytes[pos..][8..] == bytes[pos + 8..];
  }

  function Parsed(bytes: seq<Byte>): Option<seq<Part>> {
    if |bytes| < 71 || bytes[..7] != MAGIC then None
    else Split(bytes[71..], Lengths(bytes[7..], |LIMITS|), LIMITS)
  }

  lemma {:induction false} SplitBody(parts: seq<Part>, limits: seq<nat>)
    requires Fits(parts, limits)
    ensures Split(Body(parts), Sizes(parts), limits) == Some(parts)
    decreases |parts|
  {
    if parts != [] {
      SplitBody(parts[1..], limits[1..]);
      var s := Body(parts);
      assert s[..|parts[0]|] == parts[0] && s[|parts[0]|..] == Body(parts[1..]);
      assert Sizes(parts)[1..] == Sizes(parts[1..]);
      assert [parts[0]] + parts[1..] == parts;
    }
  }

  lemma {:induction false} SplitSound(s: seq<Byte>, lengths: seq<nat>, limits: seq<nat>)
    requires |lengths| == |limits| && Split(s, lengths, limits).Some?
    ensures var parts := Split(s, lengths, limits).value;
      Fits(parts, limits) && Sizes(parts) == lengths && Body(parts) == s
    decreases |lengths|
  {
    if lengths != [] {
      SplitSound(s[lengths[0]..], lengths[1..], limits[1..]);
      var parts := Split(s, lengths, limits).value;
      var rest := Split(s[lengths[0]..], lengths[1..], limits[1..]).value;
      assert parts[0] == s[..lengths[0]] && parts[1..] == rest;
      assert s == s[..lengths[0]] + s[lengths[0]..];
    }
  }

  /** Lengths read from a header are the lengths written. */
  lemma {:induction false} LengthsOfHeader(lengths: seq<nat>, tail: seq<Byte>)
    requires forall i | 0 <= i < |lengths| :: lengths[i] < LeftShift(1, 8)
    ensures Lengths(Header(lengths) + tail, |lengths|) == lengths
    decreases |lengths|
  {
    if lengths != [] {
      var first, rest := Encoded(lengths[0], 8), Header(lengths[1..]);
      LengthsOfHeader(lengths[1..], tail);
      DecodeEncoded(lengths[0], 8);
      Parting(first, rest, tail);
    }
  }

  lemma Parting(first: seq<Byte>, rest: seq<Byte>, tail: seq<Byte>)
    ensures (first + rest + tail)[..|first|] == first && (first + rest + tail)[|first|..] == rest + tail
  {
  }

  lemma CutFront(s: seq<Byte>, n: nat)
    requires 8 <= n <= |s|
    ensures s[..n] == s[..8] + s[8..][..n - 8]
  {
  }

  /** A header is determined by the lengths read from it. */
  lemma {:induction false} HeaderOfLengths(s: seq<Byte>, n: nat)
    requires 8 * n <= |s|
    ensures Header(Lengths(s, n)) == s[..8 * n]
    decreases n
  {
    if n > 0 {
      HeaderOfLengths(s[8..], n - 1);
      EncodeDecoded(s[..8]);
      var lengths := Lengths(s, n);
      assert lengths[0] == Decoded(s[..8]) && lengths[1..] == Lengths(s[8..], n - 1);
      CutFront(s, 8 * n);
    }
  }

  lemma LimitsFitALength()
    ensures forall i | 0 <= i < 8 :: LIMITS[i] < LeftShift(1, 8)
  {
    assert LeftShift(1, 4) == 256 * LeftShift(1, 3) == 65536 * LeftShift(1, 2) == 0x1_0000_0000;
    assert LeftShift(1, 8) == 256 * LeftShift(1, 7) == 65536 * LeftShift(1, 6) == 0x100_0000 * LeftShift(1, 5) == 0x1_0000_0000 * LeftShift(1, 4);
  }

  lemma CutWritten(magic: seq<Byte>, header: seq<Byte>, body: seq<Byte>)
    requires |magic| == 7 && |header| == 64
    ensures var s := magic + header + body; s[..7] == magic && s[7..] == header + body && s[71..] == body
  {
  }

  /** Reading what was written returns the same parts. */
  lemma ParseWritten(parts: seq<Part>)
    requires Fits(parts, LIMITS)
    ensures Parsed(Written(parts)) == Some(parts)
  {
    LimitsFitALength();
    var lengths, bytes := Sizes(parts), Written(parts);
    LengthsOfHeader(lengths, Body(parts));
    CutWritten(MAGIC, Header(lengths), Body(parts));
    SplitBody(parts, LIMITS);
  }

  /** Whatever is accepted is byte for byte what the writer makes of the parts read. */
  lemma WrittenParsed(bytes: seq<Byte>)
    requires Parsed(bytes).Some?
    ensures Fits(Parsed(bytes).value, LIMITS) && Written(Parsed(bytes).value) == bytes
  {
    SplitSound(bytes[71..], Lengths(bytes[7..], |LIMITS|), LIMITS);
    HeaderOfLengths(bytes[7..], |LIMITS|);
    assert bytes == bytes[..7] + bytes[7..][..64] + bytes[71..];
  }

  /** The reader accepts exactly what the writer writes, each stream for one package. */
  lemma ParsedIffWritten(bytes: seq<Byte>, parts: seq<Part>)
    ensures Parsed(bytes) == Some(parts) <==> Fits(parts, LIMITS) && Written(parts) == bytes
  {
    if Parsed(bytes).Some? { WrittenParsed(bytes); }
    if Fits(parts, LIMITS) { ParseWritten(parts); }
  }

  // --------------------------------------------------------------------------- reading, writing

  /** One of the calls from `from` up to `to` fails. */
  ghost predicate Fails(chunk: nat -> nat, from: nat, to: nat) {
    exists k: nat :: from <= k < to && chunk(k) == 0
  }

  /** A descriptor to read from. The k-th read delivers at most `chunk(k)` bytes; 0 is an
      error. */
  class Source {
    const bytes: seq<Byte>
    const chunk: nat -> nat
    var pos: nat
    var calls: nat

    ghost predicate Valid()
      reads this
    {
      pos <= |bytes|
    }

    constructor (bytes: seq<Byte>, chunk: nat -> nat)
      ensures Valid() && pos == 0 && calls == 0 && this.bytes == bytes && this.chunk == chunk
    {
      this.bytes, this.chunk, pos, calls := bytes, chunk, 0, 0;
    }

    /** `read`: -1 for an error, 0 at the end, else the number of bytes delivered. */
    method Read(length: nat) returns (received: int, data: seq<Byte>)
      requires Valid() && length > 0
      modifies this
      ensures Valid() && calls == old(calls) + 1 && -1 <= received <= length
      ensures received < 0 <==> chunk(old(calls)) == 0
      ensures received < 0 ==> pos == old(pos)
      ensures received >= 0 ==> pos == old(pos) + received && data == bytes[old(pos)..pos]
      ensures received == 0 <==> chunk(old(calls)) > 0 && old(pos) == |bytes|
    {
      var most := chunk(calls);
      calls := calls + 1;
      if most == 0 { return -1, []; }
      received := if most < length then most else length;
      received := if received < |bytes| - pos then received else |bytes| - pos;
      data := bytes[pos..pos + received];
      pos := pos + received;
    }

    /** `readAll`: however the bytes arrive, all of them unless a call fails or there are too
        few. */
    method ReadAll(length: nat) returns (ok: bool, data: seq<Byte>)
      requires Valid()
      modifies this
      ensures Valid() && calls >= old(calls)
      ensures ok ==> pos == old(pos) + length && data == bytes[old(pos)..pos] && !Fails(chunk, old(calls), calls)
      ensures !ok ==> Fails(chunk, old(calls), calls) || old(pos) + length > |bytes|
    {
      data := [];
      var left: nat := length;
      while left != 0
        invariant Valid() && left <= length && pos == old(pos) + length - left && data == bytes[old(pos)..pos]
        invariant calls >= old(calls) && !Fails(chunk, old(calls), calls)
        decreases left
      {
        var received, more := Read(left);
        if received <= 0 { return false, data; }
        data := data + more;
        left := left - received;
      }
      ok := true;
    }

    /** `readProtocolVector`. */
    method ReadVector(length: nat, limit: nat) returns (ok: bool, data: seq<Byte>)
      requires Valid()
      modifies this
      ensures Valid() && calls >= old(calls)
      ensures ok ==> 0 < length <= limit && pos == old(pos) + length && data == bytes[old(pos)..pos] && !Fails(chunk, old(calls), calls)
      ensures !ok ==> Fails(chunk, old(calls), calls) || length == 0 || length > limit || old(pos) + length > |bytes|
    {
      if length == 0 || length > limit { return false, []; }
      ok, data := ReadAll(length);
    }

    /** The lengths. */
    method ReadLengths(n: nat) returns (ok: bool, lengths: seq<nat>)
      requires Valid() && pos == 7
      modifies this
      ensures Valid() && calls >= old(calls)
      ensures ok ==> pos == 7 + 8 * n && lengths == Lengths(bytes[7..], n) && !Fails(chunk, old(calls), calls)
      ensures !ok ==> Fails(chunk, old(calls), calls) || |bytes| < 7 + 8 * n
    {
      lengths := [];
      for i := 0 to n
        invariant Valid() && pos == 7 + 8 * i && calls >= old(calls) && !Fails(chunk, old(calls), calls)
        invariant HeaderLeft(bytes, lengths, pos, i, n)
      {
        ghost var at := pos;
        ghost var call := calls;
        var done, encoded := ReadAll(8);
        FailsSplit(chunk, old(calls), call, calls);
        if !done { return false, lengths; }
        HeaderRead(bytes, lengths, at, i, n);
        var length := DecodeUint64(encoded);
        lengths := lengths + [length];
      }
      ok := true;
    }

    /** The parts, and that nothing follows. */
    method ReadParts(lengths: seq<nat>, limits: seq<nat>) returns (r: Option<seq<Part>>)
      requires Valid() && |lengths| == |limits|
      modifies this
      ensures Valid() && calls >= old(calls)
      ensures r == if Fails(chunk, old(calls), calls) then None else Split(bytes[old(pos)..], lengths, limits)
    {
      var parts: seq<Part> := [];
      assert lengths[0..] == lengths && limits[0..] == limits;
      PrependNothing(Split(bytes[pos..], lengths, limits));
      for i := 0 to |lengths|
        invariant Valid() && calls >= old(calls) && !Fails(chunk, old(calls), calls)
        invariant Split(bytes[old(pos)..], lengths, limits) == Prepend(parts, Split(bytes[pos..], lengths[i..], limits[i..]))
      {
        SplitNext(bytes, lengths, limits, i, pos, parts);
        ghost var call := calls;
        var ok, part := ReadVector(lengths[i], limits[i]);
        FailsSplit(chunk, old(calls), call, calls);
        if !ok { return None; }
        parts := parts + [part];
      }
      assert Split(bytes[pos..], [], []) == if pos == |bytes| then Some([]) else None;
      assert parts + [] == parts;
      ghost var call := calls;
      var trailing, more := Read(1);
      FailsLast(chunk, old(calls), call);
      if trailing != 0 { return None; }
      r := Some(parts);
    }

    /** `readUpdateProtocol`: what the reader returns depends on the bytes alone, not on how
        they arrive, unless one of its calls fails; then it refuses. */
    method ReadUpdateProtocol() returns (r: Option<seq<Part>>)
      requires pos == 0
      modifies this
      ensures calls >= old(calls) && r == if Fails(chunk, old(calls), calls) then None else Parsed(bytes)
      ensures (forall k :: chunk(k) > 0) ==> r == Parsed(bytes)
    {
      var ok, magic := ReadAll(7);
      if !ok || magic != MAGIC { return None; }
      ghost var call := calls;
      var complete, lengths := ReadLengths(|LIMITS|);
      FailsSplit(chunk, old(calls), call, calls);
      if !complete { return None; }
      call := calls;
      r := ReadParts(lengths, LIMITS);
      FailsSplit(chunk, old(calls), call, calls);
    }
  }

  lemma FailsSplit(chunk: nat -> nat, a: nat, b: nat, c: nat)
    requires a <= b <= c
    ensures Fails(chunk, a, c) <==> Fails(chunk, a, b) || Fails(chunk, b, c)
  {
  }

  lemma FailsLast(chunk: nat -> nat, a: nat, b: nat)
    requires a <= b
    ensures Fails(chunk, a, b + 1) <==> Fails(chunk, a, b) || chunk(b) == 0
  {
  }

  lemma StillPrefix(t: seq<Byte>, s: seq<Byte>, a: seq<Byte>, b: seq<Byte>, c: seq<Byte>)
    requires t <= s + a
    ensures t <= s + (a + b + c)
  {
    assert s + (a + b + c) == (s + a) + (b + c);
  }

  lemma GroupParts(s: seq<Byte>, a: seq<Byte>, b: seq<Byte>, c: seq<Byte>)
    ensures s + a + (b + c + []) == s + (a + b + c) == s + a + b + c
  {
  }

  /** A descriptor to write to. The k-th write takes at most `chunk(k)` bytes; 0 is an error. */
  class Sink {
    const chunk: nat -> nat
    var bytes: seq<Byte>
    var calls: nat

    constructor (chunk: nat -> nat)
      ensures bytes == [] && calls == 0 && this.chunk == chunk
    {
      this.chunk, bytes, calls := chunk, [], 0;
    }

    /** `writeAll`: all of the data, or after a part of it the failure of a call. */
    method WriteAll(data: seq<Byte>) returns (ok: bool)
      modifies this
      ensures old(bytes) <= bytes <= old(bytes) + data && calls >= old(calls)
      ensures ok ==> bytes == old(bytes) + data
      ensures ok <==> !Fails(chunk, old(calls), calls)
    {
      var sent: nat := 0;
      while sent < |data|
        invariant sent <= |data| && bytes == old(bytes) + data[..sent]
        invariant calls >= old(calls) && !Fails(chunk, old(calls), calls)
      {
        var most := chunk(calls);
        FailsLast(chunk, old(calls), calls);
        calls := calls + 1;
        if most == 0 { return false; }
        var taken := if most < |data| - sent then most else |data| - sent;
        bytes := bytes + data[sent..sent + taken];
        sent := sent + taken;
      }
      ok := true;
    }

    /** `writeProtocol`: magic, lengths and parts, or after a part of them the failure of a
        call. */
    method WriteProtocol(parts: seq<Part>) returns (ok: bool)
      requires |parts| == 8
      modifies this
      ensures bytes <= old(bytes) + Written(parts) && calls >= old(calls)
      ensures ok ==> bytes == old(bytes) + Written(parts)
      ensures ok <==> !Fails(chunk, old(calls), calls)
    {
      ghost var lengths := Sizes(parts);
      ok := WriteAll(MAGIC);
      StillPrefix(bytes, old(bytes), MAGIC, Header(lengths), Body(parts));
      if !ok { return; }
      ghost var call := calls;
      ok := WriteHeader(Sizes(parts));
      FailsSplit(chunk, old(calls), call, calls);
      StillPrefix(bytes, old(bytes) + MAGIC, Header(lengths), Body(parts), []);
      GroupParts(old(bytes), MAGIC, Header(lengths), Body(parts));
      if !ok { return; }
      call := calls;
      ok := WriteBody(parts);
      FailsSplit(chunk, old(calls), call, calls);
    }

    method WriteHeader(lengths: seq<nat>) returns (ok: bool)
      modifies this
      ensures bytes <= old(bytes) + Header(lengths) && calls >= old(calls)
      ensures ok ==> bytes == old(bytes) + Header(lengths)
      ensures ok <==> !Fails(chunk, old(calls), calls)
    {
      assert lengths[0..] == lengths;
      for i := 0 to |lengths|
        invariant old(bytes) + Header(lengths) == bytes + Header(lengths[i..])
        invariant calls >= old(calls) && !Fails(chunk, old(calls), calls)
      {
        assert lengths[i..][1..] == lengths[i + 1..];
        var length := EncodeUint64(lengths[i]);
        ghost var call := calls;
        ok := WriteAll(length);
        FailsSplit(chunk, old(calls), call, calls);
        if !ok { return false; }
      }
      ok := true;
    }

    method WriteBody(parts: seq<Part>) returns (ok: bool)
      modifies this
      ensures bytes <= old(bytes) + Body(parts) && calls >= old(calls)
      ensures ok ==> bytes == old(bytes) + Body(parts)
      ensures ok <==> !Fails(chunk, old(calls), calls)
    {
      assert parts[0..] == parts;
      for i := 0 to |parts|
        invariant old(bytes) + Body(parts) == bytes + Body(parts[i..])
        invariant calls >= old(calls) && !Fails(chunk, old(calls), calls)
      {
        assert parts[i..][1..] == parts[i + 1..];
        ghost var call := calls;
        ok := WriteAll(parts[i]);
        FailsSplit(chunk, old(calls), call, calls);
        if !ok { return false; }
      }
      ok := true;
    }
  }

  /** Through the wire and back: if no call fails, a package that fits comes out as it went
      in, however the bytes are cut on either side. */
  method SendAndReceive(parts: seq<Part>, outgoing: nat -> nat, incoming: nat -> nat) returns (received: Option<seq<Part>>)
    requires |parts| == 8
    ensures received.Some? && Fits(parts, LIMITS) ==> received.value == parts
    ensures (forall k :: outgoing(k) > 0 && incoming(k) > 0) ==> (Fits(parts, LIMITS) ==> received == Some(parts))
  {
    var sink := new Sink(outgoing);
    var sent := sink.WriteProtocol(parts);
    if !sent { return None; }
    var source := new Source(sink.bytes, incoming);
    received := source.ReadUpdateProtocol();
    assert sink.bytes == Written(parts);
    if Fits(parts, LIMITS) { ParseWritten(parts); }
  }
}
