/** The byte view of a cell array: `bytemuck::cast_slice` from `f32` to `u8`, as used by
    `Life::import` (src/life.rs). Each cell is an `f32` and is represented here by its
    IEEE-754 bit pattern; the byte order is little-endian, that of the targets the
    program runs on. */
module CellBytes {

  /** The four bytes of one cell, least significant first. */
  function WordBytes(x: bv32): (b: seq<bv8>)
    ensures |b| == 4
  {
    [(x & 0xFF) as bv8, ((x >> 8) & 0xFF) as bv8, ((x >> 16) & 0xFF) as bv8, (x >> 24) as bv8]
  }

  /** The cell whose bytes are `b`. */
  function WordOf(b: seq<bv8>): bv32
    requires |b| == 4
  {
    (b[0] as bv32) | ((b[1] as bv32) << 8) | ((b[2] as bv32) << 16) | ((b[3] as bv32) << 24)
  }

  /** Reading back the bytes of a cell gives the cell, and every four bytes are the
      bytes of some cell. */
  lemma WordRoundTrip(x: bv32, b: seq<bv8>)
    requires |b| == 4
    ensures WordOf(WordBytes(x)) == x
    ensures WordBytes(WordOf(b)) == b
  {
  }

  /** `cast_slice::<f32, u8>`: the cells laid out as bytes, four per cell, cell `i` in
      bytes `4 * i` to `4 * i + 3`. */
  function CastSlice(cells: seq<bv32>): (bytes: seq<bv8>)
    ensures |bytes| == 4 * |cells|
    ensures forall i :: 0 <= i < |cells| ==> bytes[4 * i..4 * i + 4] == WordBytes(cells[i])
  {
    if cells == [] then []
    else
      var head, rest := WordBytes(cells[0]), CastSlice(cells[1..]);
      CellLayoutShift(head, rest, cells);
      head + rest
  }

  /** Prepending one cell's bytes shifts the layout of the remaining cells by four bytes. */
  lemma CellLayoutShift(head: seq<bv8>, rest: seq<bv8>, cells: seq<bv32>)
    requires |cells| > 0 && head == WordBytes(cells[0]) && |rest| == 4 * (|cells| - 1)
    requires forall j :: 0 <= j < |cells| - 1 ==> rest[4 * j..4 * j + 4] == WordBytes(cells[1..][j])
    ensures forall i :: 0 <= i < |cells| ==> (head + rest)[4 * i..4 * i + 4] == WordBytes(cells[i])
  {
    forall i | 0 <= i < |cells|
      ensures (head + rest)[4 * i..4 * i + 4] == WordBytes(cells[i])
    {
      if i > 0 {
        assert cells[i] == cells[1..][i - 1];
        assert (head + rest)[4 * i..4 * i + 4] == rest[4 * (i - 1)..4 * (i - 1) + 4];
      }
    }
  }

  /** The cells a byte buffer holds, as a storage binding of `array<f32>` sees them. */
  function Cells(bytes: seq<bv8>): (cells: seq<bv32>)
    requires |bytes| % 4 == 0
    ensures |cells| == |bytes| / 4
  {
    if bytes == [] then [] else [WordOf(bytes[..4])] + Cells(bytes[4..])
  }

  /** Casting cells to bytes and reading them back gives the same cells: an imported
      grid is read by the next step exactly as it was given. */
  lemma {:induction false} CastSliceRoundTrip(cells: seq<bv32>)
    ensures Cells(CastSlice(cells)) == cells
  {
    if cells != [] {
      var bytes := CastSlice(cells);
      assert bytes[4..] == CastSlice(cells[1..]);
      WordRoundTrip(cells[0], bytes[..4]);
      CastSliceRoundTrip(cells[1..]);
    }
  }

  /** Every byte buffer of whole cells is the cast of the cells it holds: `cast_slice`
      reaches every such buffer. (That distinct cell arrays have distinct byte images
      follows from `CastSliceRoundTrip`.) */
  lemma {:induction false} CellsRoundTrip(bytes: seq<bv8>)
    requires |bytes| % 4 == 0
    ensures CastSlice(Cells(bytes)) == bytes
  {
    if bytes != [] {
      var cells := Cells(bytes);
      assert cells[1..] == Cells(bytes[4..]);
      WordRoundTrip(0, bytes[..4]);
      CellsRoundTrip(bytes[4..]);
      assert bytes == bytes[..4] + bytes[4..];
    }
  }
}
