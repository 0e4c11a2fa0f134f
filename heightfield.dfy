/**
 * The height map as the renderer sees it after the image has been mapped for
 * reading: a byte buffer whose rows start `rowPitch` bytes apart, de-strided
 * into a dense `width * height` array of samples, and the largest sample,
 * which later normalises every height.
 */
module HeightField {

  /** An unsigned 8-bit sample (`unsigned char` / `BYTE`). */
  newtype Byte = x: int | 0 <= x < 256

  /** Row-major position of cell (x, y) in a buffer whose rows are `stride` apart. */
  function Slot(stride: nat, x: nat, y: nat): nat
  {
    y * stride + x
  }

  lemma MulMonotone(a: nat, b: nat, c: nat)
    requires a <= b
    ensures a * c <= b * c
  {
  }

  /** Every cell of a `stride`-wide grid with fewer than `rows` rows lies below `rows * stride`. */
  lemma SlotBelow(stride: nat, rows: nat, x: nat, y: nat)
    requires x < stride && y < rows
    ensures Slot(stride, x, y) < rows * stride
  {
    MulMonotone(y + 1, rows, stride);
  }

  /** Two cells of the same grid never share a slot. */
  lemma SlotInjective(stride: nat, x1: nat, y1: nat, x2: nat, y2: nat)
    requires x1 < stride && x2 < stride
    requires Slot(stride, x1, y1) == Slot(stride, x2, y2)
    ensures x1 == x2 && y1 == y2
  {
    if y1 < y2 {
      MulMonotone(y1 + 1, y2, stride);
    } else if y2 < y1 {
      MulMonotone(y2 + 1, y1, stride);
    }
  }

  /** Every slot below `rows * stride` is the slot of exactly the cell its quotient and remainder name. */
  lemma SlotOf(stride: nat, rows: nat, k: nat)
    requires 0 < stride && k < rows * stride
    ensures k % stride < stride && k / stride < rows
    ensures Slot(stride, k % stride, k / stride) == k
  {
    if k / stride >= rows {
      MulMonotone(rows, k / stride, stride);
    }
  }

  /**
   * `depth` is the dense copy of the strided buffer `src`: it has one slot per
   * cell, and the slot of cell (x, y) holds source byte `y * rowPitch + x`.
   */
  ghost predicate IsDestrided(depth: seq<Byte>, src: seq<Byte>, width: nat, height: nat, rowPitch: nat)
  {
    |depth| == width * height &&
    forall x: nat, y: nat | x < width && y < height ::
      Slot(width, x, y) < |depth| && Slot(rowPitch, x, y) < |src| &&
      depth[Slot(width, x, y)] == src[Slot(rowPitch, x, y)]
  }

  /**
   * The depth copy of LoadAndPrepareRenderResource: a zero-filled buffer of
   * `width * height` bytes, then one write per cell, rows outer, columns inner.
   */
  method CopyDepth(src: seq<Byte>, width: nat, height: nat, rowPitch: nat) returns (depth: seq<Byte>)
    requires width <= rowPitch
    requires height == 0 || (height - 1) * rowPitch + width <= |src|
    ensures IsDestrided(depth, src, width, height, rowPitch)
  {
    var data := new Byte[width * height];
    var y := 0;
    while y < height
      invariant 0 <= y <= height
      invariant forall xx: nat, yy: nat | xx < width && yy < y ::
        Slot(width, xx, yy) < data.Length && Slot(rowPitch, xx, yy) < |src| &&
        data[Slot(width, xx, yy)] == src[Slot(rowPitch, xx, yy)]
    {
      MulMonotone(y, height - 1, rowPitch);
      var x := 0;
      while x < width
        invariant 0 <= x <= width
        invariant forall xx: nat, yy: nat | xx < width && yy < y ::
          Slot(width, xx, yy) < data.Length && Slot(rowPitch, xx, yy) < |src| &&
          data[Slot(width, xx, yy)] == src[Slot(rowPitch, xx, yy)]
        invariant forall xx: nat | xx < x ::
          Slot(width, xx, y) < data.Length && Slot(rowPitch, xx, y) < |src| &&
          data[Slot(width, xx, y)] == src[Slot(rowPitch, xx, y)]
      {
        SlotBelow(width, height, x, y);
        forall xx: nat, yy: nat | xx < width && yy <= y && Slot(width, xx, yy) == Slot(width, x, y)
          ensures xx == x && yy == y
        {
          SlotInjective(width, xx, yy, x, y);
        }
        data[Slot(width, x, y)] := src[Slot(rowPitch, x, y)];
        x := x + 1;
      }
      y := y + 1;
    }
    depth := data[..];
  }

  /** Every slot of a de-strided buffer was written from the source: none keeps its zero fill. */
  lemma DestridedSlot(depth: seq<Byte>, src: seq<Byte>, width: nat, height: nat, rowPitch: nat, k: nat)
    requires IsDestrided(depth, src, width, height, rowPitch)
    requires k < |depth|
    ensures 0 < width && k % width < width && k / width < height
    ensures Slot(rowPitch, k % width, k / width) < |src|
    ensures depth[k] == src[Slot(rowPitch, k % width, k / width)]
  {
    SlotOf(width, height, k);
  }

  /** The value `std::max_element` points at: the largest sample of a non-empty buffer. */
  function MaxSample(s: seq<Byte>): (m: Byte)
    requires |s| > 0
    ensures m in s
    ensures forall i | 0 <= i < |s| :: s[i] <= m
  {
    if |s| == 1 then s[0]
    else
      var rest := MaxSample(s[1..]);
      if s[0] < rest then rest else s[0]
  }
}
