/** The polar deform effect (main/deform.c): a lookup table of two signed
    bytes per display pixel, filled once by init, gives each pixel a texture
    coordinate; every frame shifts all coordinates by a growing counter. The
    polar map itself (a float computation cast to int8_t) is a parameter. */
module Deform {
  import opened CTypes
  import opened Sink
  import Grid

  const SPEED := 2

  /** The pair init stores for pixel (i, j): the polar map's int8_t casts,
      each reduced with C's `%` by the texture size. */
  function Targets(polar: (int, int) -> (Int8, Int8), hw: nat, hh: nat, i: nat, j: nat): (t: (Int8, Int8))
    requires hw > 0 && hh > 0
    ensures CAbs(t.0) < hw && CAbs(t.1) < hh
    ensures polar(i, j).0 >= 0 ==> t.0 >= 0
    ensures polar(i, j).1 >= 0 ==> t.1 >= 0
  {
    (CRem(polar(i, j).0, hw), CRem(polar(i, j).1, hh))
  }

  /** Table entry n: the pixel is n / 2 in row-major order; even entries hold
      tx, odd ones ty. */
  function Entry(polar: (int, int) -> (Int8, Int8), width: nat, hw: nat, hh: nat, n: nat): Int8
    requires width > 0 && hw > 0 && hh > 0
  {
    var p := n / 2;
    var t := Targets(polar, hw, hh, p % width, p / width);
    if n % 2 == 0 then t.0 else t.1
  }

  /** The whole table deform_init leaves: `DISPLAY_WIDTH * DISPLAY_HEIGHT * 2`
      entries. */
  function Table(polar: (int, int) -> (Int8, Int8), width: nat, height: nat, hw: nat, hh: nat): (t: seq<Int8>)
    requires width > 0 && hw > 0 && hh > 0
    ensures |t| == width * height * 2
  {
    seq(width * height * 2, n requires 0 <= n => Entry(polar, width, hw, hh, n))
  }

  /** Pixel (i, j) lands at offsets `2 * (j * W + i)` (tx) and one after it
      (ty), inside the table. */
  lemma TableAt(polar: (int, int) -> (Int8, Int8), width: nat, height: nat, hw: nat, hh: nat, i: nat, j: nat)
    requires hw > 0 && hh > 0 && i < width && j < height
    ensures 2 * Grid.Offset(width, i, j) + 1 < |Table(polar, width, height, hw, hh)|
    ensures Table(polar, width, height, hw, hh)[2 * Grid.Offset(width, i, j)] == Targets(polar, hw, hh, i, j).0
    ensures Table(polar, width, height, hw, hh)[2 * Grid.Offset(width, i, j) + 1] == Targets(polar, hw, hh, i, j).1
  {
    var p := Grid.Offset(width, i, j);
    Grid.OffsetInBuffer(width, height, i, j);
    assert (2 * p) / 2 == p && (2 * p + 1) / 2 == p;
    assert width * height * 2 == 2 * (width * height);
  }

  /** `abs((int16_t)(t + frame)) % extent`: the table entry plus the frame
      counter, computed in uint32_t, narrowed to int16_t, folded into the
      texture. */
  function Fold(t: int, frame: int, extent: nat): (r: nat)
    requires extent > 0
    ensures r < extent
  {
    CAbs(ToInt16(ToUint32(t + frame))) % extent
  }

  /** The uint32_t step is invisible: only the low 16 bits of the frame
      counter matter. */
  lemma FoldSixteenBits(t: int, frame: int, extent: nat)
    requires extent > 0
    ensures Fold(t, frame, extent) == CAbs(ToInt16(t + frame)) % extent
  {
    Int16OfUint32(t + frame);
  }

  /** So frame counters that differ by a multiple of 2^16 fold every entry
      the same way. */
  lemma FoldShift(t: int, frame: int, q: int, extent: nat)
    requires extent > 0
    ensures Fold(t, frame + 0x1_0000 * q, extent) == Fold(t, frame, extent)
  {
    FoldSixteenBits(t, frame, extent);
    FoldSixteenBits(t, frame + 0x1_0000 * q, extent);
    Int16Shift(t + frame, q);
  }

  /** The put_pixel call for pixel k of a render (row-major), which reads
      entries 2 * k and 2 * k + 1. */
  function Pixel(lut: seq<Int8>, frame: int, head: Texture, width: nat, height: nat, k: nat): Draw
    requires head.Valid() && |lut| == width * height * 2 && k < width * height
  {
    Grid.OffsetOfIndex(width, height, k);
    PutPixel(k % width, k / width, head.At(Fold(lut[2 * k], frame, head.width), Fold(lut[2 * k + 1], frame, head.height)))
  }

  /** All calls of one deform_render. */
  function Picture(lut: seq<Int8>, frame: int, head: Texture, width: nat, height: nat): (ops: seq<Draw>)
    requires head.Valid() && |lut| == width * height * 2
    ensures |ops| == width * height
  {
    seq(width * height, k requires 0 <= k < width * height => Pixel(lut, frame, head, width, height, k))
  }

  /** Pixel (x, y) is drawn at position `y * W + x` from entries
      `2 * (y * W + x)` and one after it. */
  lemma PictureAt(lut: seq<Int8>, frame: int, head: Texture, width: nat, height: nat, x: nat, y: nat)
    requires head.Valid() && |lut| == width * height * 2 && x < width && y < height
    ensures Grid.Offset(width, x, y) < width * height
    ensures Picture(lut, frame, head, width, height)[Grid.Offset(width, x, y)]
         == PutPixel(x, y, head.At(Fold(lut[2 * Grid.Offset(width, x, y)], frame, head.width),
                                   Fold(lut[2 * Grid.Offset(width, x, y) + 1], frame, head.height)))
  {
    Grid.OffsetInBuffer(width, height, x, y);
  }

  /** Render reads the table in the order init wrote it: after init, pixel
      (x, y) is drawn from the polar map at (x, y) itself. */
  lemma RenderAfterInit(polar: (int, int) -> (Int8, Int8), frame: int, head: Texture, width: nat, height: nat,
                        x: nat, y: nat)
    requires head.Valid() && x < width && y < height
    ensures Grid.Offset(width, x, y) < width * height
    ensures Picture(Table(polar, width, height, head.width, head.height), frame, head, width, height)[Grid.Offset(width, x, y)]
         == PutPixel(x, y, head.At(Fold(Targets(polar, head.width, head.height, x, y).0, frame, head.width),
                                   Fold(Targets(polar, head.width, head.height, x, y).1, frame, head.height)))
  {
    TableAt(polar, width, height, head.width, head.height, x, y);
    PictureAt(Table(polar, width, height, head.width, head.height), frame, head, width, height, x, y);
  }

  /** One deform_animate: `frame + SPEED` in uint32_t. */
  function Advance(frame: Uint32): (f: Uint32)
    ensures (f - frame - SPEED) % 0x1_0000_0000 == 0
    ensures frame + SPEED < 0x1_0000_0000 ==> f == frame + SPEED
  {
    ToUint32(frame + SPEED)
  }

  /** The frame counter after `n` animate calls. */
  function AdvanceN(frame: Uint32, n: nat): Uint32
  {
    if n == 0 then frame else Advance(AdvanceN(frame, n - 1))
  }

  /** `n` animate calls add 2 * n to the counter, modulo 2^32. */
  lemma {:induction false} AdvanceNIs(frame: Uint32, n: nat)
    ensures AdvanceN(frame, n) == ToUint32(frame + SPEED * n)
  {
    if n > 0 {
      AdvanceNIs(frame, n - 1);
      var b := frame + SPEED * (n - 1);
      assert b == ToUint32(b) + 0x1_0000_0000 * (b / 0x1_0000_0000);
      ModShift(ToUint32(b) + SPEED, 0x1_0000_0000, b / 0x1_0000_0000);
    }
  }

  /** Every 32768 animate calls the picture repeats, whatever the table. */
  lemma Period(lut: seq<Int8>, frame: Uint32, head: Texture, width: nat, height: nat)
    requires head.Valid() && |lut| == width * height * 2
    ensures Picture(lut, AdvanceN(frame, 0x8000), head, width, height) == Picture(lut, frame, head, width, height)
  {
    AdvanceNIs(frame, 0x8000);
    var q := (frame + 0x1_0000) / 0x1_0000_0000;
    var later := AdvanceN(frame, 0x8000);
    assert later == frame + 0x1_0000 * (1 - 0x1_0000 * q);
    forall t: int, extent: nat | extent > 0
      ensures Fold(t, later, extent) == Fold(t, frame, extent)
    {
      FoldShift(t, frame, 1 - 0x1_0000 * q, extent);
    }
  }

  class Effect {
    const width: nat
    const height: nat
    const head: Texture
    /** `(int8_t)(HEAD_WIDTH * u)` and `(int8_t)(HEAD_HEIGHT * v)` of the
        polar map at pixel (i, j). */
    const polar: (int, int) -> (Int8, Int8)
    var frame: Uint32
    var lut: array?<Int8>
    ghost var Repr: set<object>

    ghost predicate Valid()
      reads this, Repr
    {
      && this in Repr
      && 0 < width && 0 < height && head.Valid()
      && (lut != null ==> lut in Repr && lut.Length == width * height * 2)
    }

    /** The table is allocated: between init and close. */
    ghost predicate Ready()
      reads this
    {
      lut != null
    }

    /** What the current state renders. */
    ghost function CurrentPicture(): seq<Draw>
      reads this, Repr
      requires Valid() && Ready()
    {
      Picture(lut[..], frame, head, width, height)
    }

    /** The statics before the first init: frame 0 and no table. */
    constructor (width: nat, height: nat, head: Texture, polar: (int, int) -> (Int8, Int8))
      requires 0 < width && 0 < height && head.Valid()
      ensures Valid() && !Ready() && frame == 0 && fresh(Repr)
      ensures this.width == width && this.height == height && this.head == head && this.polar == polar
    {
      this.width, this.height, this.head, this.polar := width, height, head, polar;
      frame := 0;
      lut := null;
      Repr := {this};
    }

    /** deform_init: allocates a fresh table and fills it completely; the
        frame counter is not reset. */
    method Init()
      requires Valid()
      modifies this
      ensures Valid() && Ready() && fresh(lut) && Repr == {this, lut}
      ensures lut[..] == Table(polar, width, height, head.width, head.height)
      ensures frame == old(frame)
    {
      var table := NewTable();
      lut := table;
      Repr := {this, lut};
    }

    /** The fill loops of deform_init: one row after another, tx then ty for
        each pixel, through `ptr`, which advances two entries per pixel. */
    method NewTable() returns (t: array<Int8>)
      requires 0 < width && head.Valid()
      ensures fresh(t) && t.Length == width * height * 2
      ensures t[..] == Table(polar, width, height, head.width, head.height)
    {
      ghost var table := Table(polar, width, height, head.width, head.height);
      t := new Int8[width * height * 2];
      var ptr := 0;
      var j := 0;
      while j < height
        invariant 0 <= j <= height
        invariant ptr == 2 * Grid.Offset(width, 0, j)
        invariant forall n :: 0 <= n < ptr && n < t.Length ==> t[n] == table[n]
      {
        var i := 0;
        while i < width
          invariant 0 <= i <= width
          invariant ptr == 2 * Grid.Offset(width, i, j)
          invariant forall n :: 0 <= n < ptr && n < t.Length ==> t[n] == table[n]
        {
          TableAt(polar, width, height, head.width, head.height, i, j);
          var (u, v) := polar(i, j);
          var tx: Int8 := CRem(u, head.width);
          var ty: Int8 := CRem(v, head.height);
          t[ptr] := tx;
          ptr := ptr + 1;
          t[ptr] := ty;
          ptr := ptr + 1;
          i := i + 1;
        }
        assert Grid.Offset(width, width, j) == Grid.Offset(width, 0, j + 1);
        j := j + 1;
      }
      assert ptr == t.Length;
    }

    /** deform_animate. */
    method Animate()
      requires Valid()
      modifies this
      ensures Valid() && frame == Advance(old(frame))
      ensures lut == old(lut) && Repr == old(Repr)
    {
      frame := ToUint32(frame + SPEED);
    }

    /** deform_render: one put_pixel per display pixel, row by row, reading
        the table through `ptr` in the order init wrote it. */
    method Render() returns (ops: seq<Draw>)
      requires Valid() && Ready()
      ensures ops == CurrentPicture()
    {
      ghost var picture := CurrentPicture();
      ops := [];
      var ptr := 0;
      var y := 0;
      while y < height
        invariant 0 <= y <= height
        invariant |ops| == Grid.Offset(width, 0, y) <= |picture| && ptr == 2 * |ops|
        invariant ops == picture[..|ops|]
      {
        var x := 0;
        while x < width
          invariant 0 <= x <= width
          invariant |ops| == Grid.Offset(width, x, y) <= |picture| && ptr == 2 * |ops|
          invariant ops == picture[..|ops|]
        {
          PictureAt(lut[..], frame, head, width, height, x, y);
          var u := ToInt16(ToUint32(lut[ptr] + frame));
          ptr := ptr + 1;
          var v := ToInt16(ToUint32(lut[ptr] + frame));
          ptr := ptr + 1;
          var tu := CAbs(u) % head.width;
          var tv := CAbs(v) % head.height;
          ops := ops + [PutPixel(x, y, head.At(tu, tv))];
          x := x + 1;
        }
        assert Grid.Offset(width, width, y) == Grid.Offset(width, 0, y + 1);
        y := y + 1;
      }
    }

    /** deform_close: releases the table; the frame counter survives. */
    method Close()
      requires Valid()
      modifies this
      ensures Valid() && !Ready() && Repr == {this} && frame == old(frame)
    {
      lut := null;
      Repr := {this};
    }
  }
}
