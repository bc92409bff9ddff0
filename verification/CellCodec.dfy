/** How the shadow screen's cells are stored between pumps: three bytes a cell
    (coprocessor/MRCoprocessorDeferredPlayback.cpp). */
module CellCodec {
  import opened Basics
  import opened ScreenCells

  /** A cell whose sign and attribute each fit a byte, as in the program. */
  predicate Storable(c: Cell) { c.ch as int < 256 && 0 <= c.attr < 256 }

  function Encoded(cells: seq<Cell>): (s: seq<Byte>)
    requires forall k | 0 <= k < |cells| :: Storable(cells[k])
    ensures |s| == 3 * |cells|
  {
    if cells == [] then []
    else
      Encoded(cells[..|cells| - 1]) + Triple(cells[|cells| - 1])
  }

  function Triple(c: Cell): (t: seq<Byte>)
    requires Storable(c)
    ensures |t| == 3 && CellOf(t[0], t[1], t[2]) == c && t[2] <= 1
  {
    var ch: Byte, attr: Byte, known: Byte := c.ch as int, c.attr, if c.known then 1 else 0;
    [ch, attr, known]
  }

  function CellOf(ch: Byte, attr: Byte, known: Byte): Cell {
    Cell(ch as char, attr, known != 0)
  }

  /** Whole triples from the front; one or two bytes left over are dropped. */
  function Decoded(s: seq<Byte>): (cells: seq<Cell>)
    ensures |cells| == |s| / 3 && forall k | 0 <= k < |cells| :: Storable(cells[k])
    ensures forall k | 0 <= k < |cells| :: cells[k] == CellOf(s[3 * k], s[3 * k + 1], s[3 * k + 2])
  {
    seq(|s| / 3, k requires 0 <= k < |s| / 3 => CellOf(s[3 * k], s[3 * k + 1], s[3 * k + 2]))
  }

  lemma {:induction false} EncodedAt(cells: seq<Cell>, k: nat)
    requires (forall i | 0 <= i < |cells| :: Storable(cells[i])) && k < |cells|
    ensures Encoded(cells)[3 * k..3 * k + 3] == Triple(cells[k])
    decreases |cells|
  {
    var front := Encoded(cells[..|cells| - 1]);
    if k < |cells| - 1 {
      EncodedAt(cells[..|cells| - 1], k);
      assert Encoded(cells)[3 * k..3 * k + 3] == front[3 * k..3 * k + 3];
    }
  }

  lemma TripleAt(cells: seq<Cell>, k: nat)
    requires (forall i | 0 <= i < |cells| :: Storable(cells[i])) && k < |cells|
    ensures var s := Encoded(cells); CellOf(s[3 * k], s[3 * k + 1], s[3 * k + 2]) == cells[k]
  {
    EncodedAt(cells, k);
    var s := Encoded(cells);
    var t := s[3 * k..3 * k + 3];
    assert t[0] == s[3 * k] && t[1] == s[3 * k + 1] && t[2] == s[3 * k + 2];
  }

  lemma DecodeEncoded(cells: seq<Cell>)
    requires forall k | 0 <= k < |cells| :: Storable(cells[k])
    ensures Decoded(Encoded(cells)) == cells
  {
    var d := Decoded(Encoded(cells));
    assert |d| == |cells|;
    forall k | 0 <= k < |cells| ensures d[k] == cells[k] { TripleAt(cells, k); }
  }

  /** Bytes come back exactly if they are whole triples whose last byte is 0 or 1. */
  lemma EncodeDecoded(s: seq<Byte>)
    ensures Encoded(Decoded(s)) == s <==> |s| % 3 == 0 && forall k | 0 <= k < |s| / 3 :: s[3 * k + 2] <= 1
  {
    var t := Encoded(Decoded(s));
    forall k | 0 <= k < |s| / 3
      ensures t[3 * k] == s[3 * k] && t[3 * k + 1] == s[3 * k + 1] && t[3 * k + 2] == if s[3 * k + 2] == 0 then 0 else 1
    {
      EncodedAt(Decoded(s), k);
      assert t[3 * k..3 * k + 3] == [t[3 * k], t[3 * k + 1], t[3 * k + 2]];
    }
    if |s| % 3 == 0 && forall k | 0 <= k < |s| / 3 :: s[3 * k + 2] <= 1 {
      forall i | 0 <= i < |s| ensures t[i] == s[i] {
        var k := i / 3;
        assert i == 3 * k || i == 3 * k + 1 || i == 3 * k + 2;
      }
    }
  }

  method EncodeCells(cells: seq<Cell>) returns (encoded: seq<Byte>)
    requires forall k | 0 <= k < |cells| :: Storable(cells[k])
    ensures encoded == Encoded(cells)
  {
    encoded := [];
    for i := 0 to |cells|
      invariant encoded == Encoded(cells[..i])
    {
      assert cells[..i + 1][..i] == cells[..i];
      var ch: Byte, attr: Byte, known: Byte := cells[i].ch as int, cells[i].attr, if cells[i].known then 1 else 0;
      encoded := encoded + [ch] + [attr] + [known];
    }
    assert cells[..|cells|] == cells;
  }

  method DecodeCells(encoded: seq<Byte>) returns (cells: seq<Cell>)
    ensures cells == Decoded(encoded)
  {
    cells := [];
    var i := 0;
    while i + 2 < |encoded|
      invariant i == 3 * |cells| <= |encoded|
      invariant forall k | 0 <= k < |cells| :: cells[k] == CellOf(encoded[3 * k], encoded[3 * k + 1], encoded[3 * k + 2])
    {
      cells := cells + [CellOf(encoded[i], encoded[i + 1], encoded[i + 2])];
      i := i + 3;
    }
  }
}
