/** Packing a strided framebuffer into a dense RGBA buffer with every alpha byte set, on a machine of any word size. */
module FramePacking {
  import opened Basics

  /** Multiplication and addition that must not overflow the machine's unsigned word. */
  function Mul(max: nat, a: nat, b: nat): nat
    requires a * b <= max
  {
    a * b
  }

  function Add(max: nat, a: nat, b: nat): nat
    requires a + b <= max
  {
    a + b
  }

  function SaturatingMul(max: nat, a: nat, b: nat): nat {
    if a * b <= max then a * b else max
  }

  lemma {:induction false} MulMono(a: nat, b: nat, c: nat)
    requires a <= b
    ensures a * c <= b * c
    decreases b
  {
    if a < b {
      MulMono(a, b - 1, c);
      assert b * c == (b - 1) * c + c;
    }
  }

  /** Row r of `height` rows of `size` bytes ends inside them, and before any later row. */
  lemma RowInside(r: nat, height: nat, size: nat)
    requires r < height
    ensures r * size + size <= height * size
  {
    MulMono(r + 1, height, size);
    assert (r + 1) * size == r * size + size;
  }

  /** Row r of the packed data is row r of the source, without its padding. */
  ghost predicate RowCopied(data: seq<byte>, source: seq<byte>, row: nat, stride: nat, r: nat) {
    r * row + row <= |data| && r * stride + row <= |source|
    && data[r * row..r * row + row] == source[r * stride..r * stride + row]
  }

  lemma RowKept(before: seq<byte>, after: seq<byte>, source: seq<byte>, row: nat, stride: nat, q: nat, r: nat)
    requires q < r && RowCopied(before, source, row, stride, q)
    requires |after| == |before| && r * row <= |before| && after[..r * row] == before[..r * row]
    ensures RowCopied(after, source, row, stride, q)
  {
    RowInside(q, r, row);
    var lo, hi := q * row, q * row + row;
    assert after[lo..hi] == after[..r * row][lo..hi];
    assert before[lo..hi] == before[..r * row][lo..hi];
  }

  /** Copies the rows one after the other. Every product and sum stays within the machine word. */
  method CopyRows(max: nat, source: seq<byte>, row: nat, stride: nat, height: nat) returns (data: array<byte>)
    requires row <= stride && height * stride <= |source| <= max
    ensures fresh(data) && data.Length == height * row
    ensures forall r | 0 <= r < height :: RowCopied(data[..], source, row, stride, r)
  {
    RowsFit(row, stride, height);
    data := new byte[Mul(max, height, row)];
    for r := 0 to height
      invariant fresh(data) && data.Length == height * row
      invariant forall q | 0 <= q < r :: RowCopied(data[..], source, row, stride, q)
    {
      RowInside(r, height, row);
      RowInside(r, height, stride);
      var srcStart := Mul(max, r, stride);
      var srcEnd := Add(max, srcStart, row);
      var dstStart := Mul(max, r, row);
      var dstEnd := Add(max, dstStart, row);
      ghost var before := data[..];
      CopySlice(data, dstStart, dstEnd, source[srcStart..srcEnd]);
      forall q | 0 <= q < r ensures RowCopied(data[..], source, row, stride, q) {
        RowKept(before, data[..], source, row, stride, q, r);
      }
    }
  }

  /** data[from..to] := values. */
  method CopySlice(data: array<byte>, from: nat, to: nat, values: seq<byte>)
    requires from + |values| == to <= data.Length
    modifies data
    ensures data[from..to] == values
    ensures data[..from] == old(data[..from]) && data[to..] == old(data[to..])
  {
    for i := 0 to |values|
      invariant data[from..from + i] == values[..i]
      invariant data[..from] == old(data[..from]) && data[to..] == old(data[to..])
    {
      data[from + i] := values[i];
    }
    assert values[..|values|] == values;
  }

  lemma RowsFit(row: nat, stride: nat, height: nat)
    requires row <= stride
    ensures height * row <= height * stride
  {
    MulMono(row, stride, height);
  }

  /** Sets the fourth byte of every group of four. */
  method MakeOpaque(data: array<byte>)
    requires data.Length % 4 == 0
    modifies data
    ensures forall i | 0 <= i < data.Length :: data[i] == if i % 4 == 3 then 255 else old(data[i])
  {
    for p := 0 to data.Length / 4
      invariant forall i | 0 <= i < data.Length :: data[i] == if i % 4 == 3 && i < 4 * p then 255 else old(data[i])
    {
      data[4 * p + 3] := 255;
    }
  }

  /** The pixel in row r and column c: its colour from the source row, its alpha opaque. */
  ghost predicate PixelAt(data: seq<byte>, source: seq<byte>, width: nat, stride: nat, r: nat, c: nat) {
    var d, s := r * (4 * width) + 4 * c, r * stride + 4 * c;
    d + 3 < |data| && s + 3 < |source|
    && data[d] == source[s] && data[d + 1] == source[s + 1] && data[d + 2] == source[s + 2] && data[d + 3] == 255
  }

  lemma PixelOfRow(rows: seq<byte>, data: seq<byte>, source: seq<byte>, width: nat, stride: nat, r: nat, c: nat)
    requires c < width && RowCopied(rows, source, 4 * width, stride, r)
    requires |data| == |rows| && forall i | 0 <= i < |rows| :: data[i] == if i % 4 == 3 then 255 else rows[i]
    ensures PixelAt(data, source, width, stride, r, c)
  {
    Multiple(r, width);
    PixelInRow(rows, data, source, r * (4 * width), r * stride, 4 * width, c);
  }

  lemma Multiple(r: nat, width: nat)
    ensures r * (4 * width) % 4 == 0
  {
    assert r * (4 * width) == 4 * (r * width);
  }

  /** The same with the two row offsets given. */
  lemma PixelInRow(rows: seq<byte>, data: seq<byte>, source: seq<byte>, to: nat, from: nat, row: nat, c: nat)
    requires to % 4 == 0 && 4 * c + 4 <= row && to + row <= |rows| && from + row <= |source|
    requires rows[to..to + row] == source[from..from + row]
    requires |data| == |rows| && forall i | 0 <= i < |rows| :: data[i] == if i % 4 == 3 then 255 else rows[i]
    ensures var d, s := to + 4 * c, from + 4 * c;
      data[d] == source[s] && data[d + 1] == source[s + 1] && data[d + 2] == source[s + 2] && data[d + 3] == 255
  {
    var a, b := rows[to..to + row], source[from..from + row];
    assert a[4 * c] == b[4 * c] && a[4 * c + 1] == b[4 * c + 1] && a[4 * c + 2] == b[4 * c + 2];
  }

  /** Nothing is emitted; or a frame; or a product exceeds the machine word (a panic, or a wrapped product). */
  datatype Packed = Dropped | Frame(pixels: seq<byte>) | Overflow

  predicate Packable(source: seq<byte>, width: nat, height: nat, bytesPerPixel: nat, stride: nat) {
    width != 0 && height != 0 && bytesPerPixel == 4 && height * stride <= |source| && 4 * width <= stride
  }

  /**
   * The whole of emit_full_frame up to the event. `max` is the largest machine word. The decoder's
   * dimensions are 16 bits wide; no slice is longer than half the address space.
   */
  method PackFrame(max: nat, source: seq<byte>, width: nat, height: nat, bytesPerPixel: nat, stride: nat)
    returns (packed: Packed)
    requires width < 0x1_0000 && height < 0x1_0000
    requires stride <= max && 2 * |source| < max
    ensures packed.Overflow? <==> width != 0 && height != 0 && bytesPerPixel == 4 && 4 * width > max
    ensures packed.Frame? <==> Packable(source, width, height, bytesPerPixel, stride)
    ensures packed.Frame? ==> |packed.pixels| == height * (4 * width)
    ensures packed.Frame? ==>
      forall r, c | 0 <= r < height && 0 <= c < width :: PixelAt(packed.pixels, source, width, stride, r, c)
  {
    if width == 0 || height == 0 || bytesPerPixel != 4 { return Dropped; }
    if 4 * width > max { return Overflow; }
    var row := Mul(max, width, 4);
    var expected := SaturatingMul(max, stride, height);
    if |source| < expected || stride < row { return Dropped; }
    var data := CopyRows(max, source, row, stride, height);
    ghost var rows := data[..];
    assert data.Length % 4 == 0 by { assert height * row == 4 * (height * width); }
    MakeOpaque(data);
    forall r, c | 0 <= r < height && 0 <= c < width ensures PixelAt(data[..], source, width, stride, r, c) {
      PixelOfRow(rows, data[..], source, width, stride, r, c);
    }
    return Frame(data[..]);
  }

  /** The word sizes on which no width overflows: those of at least eighteen bits. */
  lemma NoWidthOverflowsIff(max: nat)
    ensures (forall width: nat | width < 0x1_0000 :: FitsWord(max, width)) <==> 4 * 0xFFFF <= max
  {
    if forall width: nat | width < 0x1_0000 :: FitsWord(max, width) { assert FitsWord(max, 0xFFFF); }
  }

  predicate FitsWord(max: nat, width: nat) {
    4 * width <= max
  }
}
