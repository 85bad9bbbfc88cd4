/** The palette plasma effect (main/plasma.c): a 256-entry palette and an
    8-bit index buffer, one byte per display pixel, of which only the entries
    at even coordinates are used; animate cycles those indices. */
module Plasma {
  import opened CTypes
  import opened Sink
  import Grid

  const SPEED := 6
  const STEP := 2
  const PALETTE_SIZE := 256

  /** Whether entry k of a buffer with rows `width` long is at an even column
      and an even row, i.e. one the STEP-2 loops visit. */
  predicate Sampled(width: nat, k: nat)
    requires width > 0
  {
    (k % width) % STEP == 0 && (k / width) % STEP == 0
  }

  /** The entry at (x, y) is sampled exactly when x and y are both even. */
  lemma SampledAt(width: nat, height: nat, x: nat, y: nat)
    requires x < width && y < height
    ensures Sampled(width, Grid.Offset(width, x, y)) <==> x % 2 == 0 && y % 2 == 0
  {
    Grid.OffsetInBuffer(width, height, x, y);
  }

  /** One step of the color index: `color += SPEED` on a uint8_t, then
      `color %= 256`. */
  function Cycle(color: Byte): (c: Byte)
    ensures c == (color + SPEED) % 256
  {
    ToByte(color + SPEED) % 256
  }

  /** The buffer after plasma_animate. */
  function Animated(s: seq<Byte>, width: nat): (t: seq<Byte>)
    requires width > 0
    ensures |t| == |s|
    ensures forall k :: 0 <= k < |s| && Sampled(width, k) ==> t[k] == (s[k] + SPEED) % 256
    ensures forall k :: 0 <= k < |s| && !Sampled(width, k) ==> t[k] == s[k]
  {
    seq(|s|, k requires 0 <= k < |s| => if Sampled(width, k) then Cycle(s[k]) else s[k])
  }

  /** The buffer after `n` calls of plasma_animate. */
  function AnimatedN(s: seq<Byte>, width: nat, n: nat): (t: seq<Byte>)
    requires width > 0
    ensures |t| == |s|
  {
    if n == 0 then s else Animated(AnimatedN(s, width, n - 1), width)
  }

  /** `n` animate calls add 6 * n, modulo 256, to every sampled entry and
      leave the others alone. */
  lemma {:induction false} AnimatedNAt(s: seq<Byte>, width: nat, n: nat, k: nat)
    requires width > 0 && k < |s|
    ensures AnimatedN(s, width, n)[k] ==
      if Sampled(width, k) then (s[k] + SPEED * n) % 256 else s[k]
  {
    if n > 0 {
      AnimatedNAt(s, width, n - 1, k);
      var before := AnimatedN(s, width, n - 1);
      assert AnimatedN(s, width, n)[k] == Animated(before, width)[k];
      if Sampled(width, k) {
        assert before[k] == (s[k] + SPEED * (n - 1)) % 256;
        ShiftStep(s[k], n);
      }
    }
  }

  lemma ShiftStep(a: nat, n: nat)
    requires n > 0
    ensures ((a + SPEED * (n - 1)) % 256 + SPEED) % 256 == (a + SPEED * n) % 256
  {
    var b := a + SPEED * (n - 1);
    assert b == 256 * (b / 256) + b % 256;
    assert b + SPEED == a + SPEED * n;
  }

  /** After 128 animate calls the buffer is back where it started. */
  lemma Period(s: seq<Byte>, width: nat)
    requires width > 0
    ensures AnimatedN(s, width, 128) == s
  {
    forall k | 0 <= k < |s|
      ensures AnimatedN(s, width, 128)[k] == s[k]
    {
      AnimatedNAt(s, width, 128, k);
      assert (s[k] + SPEED * 128) % 256 == s[k];
    }
  }

  /** No smaller positive number of animate calls brings any sampled entry
      back: 128 is the least period. */
  lemma LeastPeriod(s: seq<Byte>, width: nat, n: nat, k: nat)
    requires width > 0 && 0 < n < 128 && k < |s| && Sampled(width, k)
    ensures AnimatedN(s, width, n)[k] != s[k]
  {
    AnimatedNAt(s, width, n, k);
    var t := s[k] + SPEED * n;
    if t % 256 == s[k] {
      assert t == s[k] + 256 * (t / 256);
      assert 0 < SPEED * n < 768;
    }
  }

  /** `base` with the noise kernel written at every sampled (x, y). */
  function Stamped(base: seq<Byte>, noise: (int, int) -> Byte, width: nat): (s: seq<Byte>)
    requires width > 0
    ensures |s| == |base|
  {
    seq(|base|, k requires 0 <= k < |base| =>
      if Sampled(width, k) then noise(k % width, k / width) else base[k])
  }

  /** The buffer plasma_init leaves: the noise kernel at every sampled (x, y),
      and whatever the fresh allocation held everywhere else. */
  function Initial(noise: (int, int) -> Byte, uninit: nat -> Byte, width: nat, height: nat): (s: seq<Byte>)
    requires width > 0
    ensures |s| == width * height
  {
    Stamped(Unwritten(uninit, width * height), noise, width)
  }

  /** A fresh allocation of n bytes, before anything is written to it. */
  function Unwritten(uninit: nat -> Byte, n: nat): (s: seq<Byte>)
    ensures |s| == n
  {
    seq(n, k requires 0 <= k => uninit(k))
  }

  /** The put_pixel call for (x, y): the palette color of the index stored at
      offset `x + DISPLAY_WIDTH * y`. */
  function PixelAt(palette: seq<Color>, buffer: seq<Byte>, width: nat, height: nat, x: nat, y: nat): Draw
    requires |palette| == PALETTE_SIZE && |buffer| == width * height
    requires x < width && y < height
  {
    Grid.OffsetInBuffer(width, height, x, y);
    PutPixel(x, y, palette[buffer[Grid.Offset(width, x, y)]])
  }

  /** The call a render makes for column i, row j of the sampling grid. */
  function Cells(palette: seq<Color>, buffer: seq<Byte>, width: nat, height: nat): (nat, nat) --> Draw
    requires |palette| == PALETTE_SIZE && |buffer| == width * height
  {
    (i: nat, j: nat) requires STEP * i < width && STEP * j < height =>
      PixelAt(palette, buffer, width, height, STEP * i, STEP * j)
  }

  /** All calls of one plasma_render: x outermost, y inner, both in steps of
      STEP. */
  function Frame(palette: seq<Color>, buffer: seq<Byte>, width: nat, height: nat): seq<Draw>
    requires |palette| == PALETTE_SIZE && |buffer| == width * height
  {
    Scan(Cells(palette, buffer, width, height), Grid.Half(width), Grid.Half(height))
  }

  /** The call a render makes for sampled coordinate (2 * i, 2 * j) comes at
      position i * rows + j and puts the palette color of the index stored at
      that coordinate, which is inside the display. */
  lemma FrameAt(palette: seq<Color>, buffer: seq<Byte>, width: nat, height: nat, i: nat, j: nat)
    requires |palette| == PALETTE_SIZE && |buffer| == width * height
    requires i < Grid.Half(width) && j < Grid.Half(height)
    ensures 2 * i < width && 2 * j < height
    ensures Grid.Offset(Grid.Half(height), j, i) < |Frame(palette, buffer, width, height)|
    ensures Frame(palette, buffer, width, height)[Grid.Offset(Grid.Half(height), j, i)]
         == PixelAt(palette, buffer, width, height, 2 * i, 2 * j)
  {
    ScanAt(Cells(palette, buffer, width, height), Grid.Half(width), Grid.Half(height), i, j);
  }

  /** Every call of a render is a put_pixel at a sampled coordinate inside
      the display, with the palette color of the index stored there. */
  lemma FrameIndex(palette: seq<Color>, buffer: seq<Byte>, width: nat, height: nat, k: nat) returns (x: nat, y: nat)
    requires |palette| == PALETTE_SIZE && |buffer| == width * height
    requires k < |Frame(palette, buffer, width, height)|
    ensures x < width && y < height && x % 2 == 0 && y % 2 == 0
    ensures Frame(palette, buffer, width, height)[k] == PixelAt(palette, buffer, width, height, x, y)
  {
    var i, j := ScanIndex(Cells(palette, buffer, width, height), Grid.Half(width), Grid.Half(height), k);
    x, y := STEP * i, STEP * j;
  }

  // Progress of the x-then-y loops over the sampled entries: entry k is done
  // once its column is left of x, or it is in column x above row y.

  ghost predicate Done(width: nat, k: nat, x: nat, y: nat)
    requires width > 0
  {
    k % width < x || (k % width == x && k / width < y)
  }

  /** `base` with the sampled entries done so far replaced by `f`. */
  ghost function Overlay(base: seq<Byte>, f: nat -> Byte, width: nat, x: nat, y: nat): (s: seq<Byte>)
    requires width > 0
    ensures |s| == |base|
  {
    seq(|base|, k requires 0 <= k < |base| => if Sampled(width, k) && Done(width, k, x, y) then f(k) else base[k])
  }

  lemma OverlayStart(base: seq<Byte>, f: nat -> Byte, width: nat)
    requires width > 0
    ensures Overlay(base, f, width, 0, 0) == base
  {
    forall k | 0 <= k < |base|
      ensures Overlay(base, f, width, 0, 0)[k] == base[k]
    {
      assert !Done(width, k, 0, 0);
    }
  }

  /** Writing f at the offset of (x, y) moves the loop one row down. */
  lemma OverlayStep(base: seq<Byte>, f: nat -> Byte, width: nat, height: nat, x: nat, y: nat)
    requires |base| == width * height && x < width && y < height && x % 2 == 0 && y % 2 == 0
    ensures Grid.Offset(width, x, y) < |base|
    ensures Overlay(base, f, width, x, y)[Grid.Offset(width, x, y) := f(Grid.Offset(width, x, y))]
         == Overlay(base, f, width, x, y + STEP)
  {
    var p := Grid.Offset(width, x, y);
    Grid.OffsetIsCoordinate(width, height, x, y);
    var before := Overlay(base, f, width, x, y);
    var after := Overlay(base, f, width, x, y + STEP);
    forall k | 0 <= k < |base|
      ensures before[p := f(p)][k] == after[k]
    {
      if k == p {
        assert Sampled(width, k) && Done(width, k, x, y + STEP);
      } else {
        assert !(k % width == x && k / width == y);
        assert Sampled(width, k) ==> (Done(width, k, x, y) <==> Done(width, k, x, y + STEP));
      }
    }
  }

  /** Leaving the bottom of column x moves the loop to the top of column x + 2. */
  lemma OverlayColumn(base: seq<Byte>, f: nat -> Byte, width: nat, height: nat, x: nat, y: nat)
    requires |base| == width * height && width > 0 && x % 2 == 0 && height <= y
    ensures Overlay(base, f, width, x, y) == Overlay(base, f, width, x + STEP, 0)
  {
    forall k | 0 <= k < |base|
      ensures Overlay(base, f, width, x, y)[k] == Overlay(base, f, width, x + STEP, 0)[k]
    {
      Grid.OffsetOfIndex(width, height, k);
      assert k / width < y;
      if Sampled(width, k) {
        assert Done(width, k, x, y) <==> Done(width, k, x + STEP, 0);
      }
    }
  }

  /** Once x has passed the last column, every sampled entry is done. */
  lemma OverlayEnd(base: seq<Byte>, f: nat -> Byte, width: nat, x: nat)
    requires width > 0 && width <= x
    ensures forall k :: 0 <= k < |base| ==>
      Overlay(base, f, width, x, 0)[k] == if Sampled(width, k) then f(k) else base[k]
  {
  }

  /** What plasma_init writes at entry k: the noise at k's coordinate. */
  function NoiseFill(noise: (int, int) -> Byte, width: nat): nat -> Byte
    requires width > 0
  {
    k => noise(k % width, k / width)
  }

  /** Writing the noise at (x, y) to its entry moves the fill loops one row
      down. */
  lemma StampStep(base: seq<Byte>, noise: (int, int) -> Byte, width: nat, height: nat, x: nat, y: nat)
    requires |base| == width * height && x < width && y < height && x % 2 == 0 && y % 2 == 0
    ensures Grid.Offset(width, x, y) < |base|
    ensures Overlay(base, NoiseFill(noise, width), width, x, y)[Grid.Offset(width, x, y) := noise(x, y)]
         == Overlay(base, NoiseFill(noise, width), width, x, y + STEP)
  {
    Grid.OffsetInBuffer(width, height, x, y);
    OverlayStep(base, NoiseFill(noise, width), width, height, x, y);
  }

  /** What plasma_animate writes at entry k: the cycled index. */
  function Cycled(base: seq<Byte>): nat -> Byte
  {
    (k: nat) => if k < |base| then Cycle(base[k]) else 0
  }

  /** Cycling the index at (x, y) in place moves the animate loops one row
      down. */
  lemma CycleStep(base: seq<Byte>, width: nat, height: nat, x: nat, y: nat)
    requires |base| == width * height && x < width && y < height && x % 2 == 0 && y % 2 == 0
    ensures Grid.Offset(width, x, y) < |base|
    ensures var p := Grid.Offset(width, x, y);
      var before := Overlay(base, Cycled(base), width, x, y);
      before[p] == base[p] &&
      before[p := ToByte(base[p] + SPEED) % 256] == Overlay(base, Cycled(base), width, x, y + STEP)
  {
    var p := Grid.Offset(width, x, y);
    Grid.OffsetInBuffer(width, height, x, y);
    OverlayStep(base, Cycled(base), width, height, x, y);
    assert !Done(width, p, x, y);
  }

  /** What the fill loops of plasma_init leave is `base` stamped with the noise. */
  lemma OverlayStamped(base: seq<Byte>, noise: (int, int) -> Byte, width: nat, x: nat)
    requires 0 < width <= x
    ensures Overlay(base, NoiseFill(noise, width), width, x, 0) == Stamped(base, noise, width)
  {
    OverlayEnd(base, NoiseFill(noise, width), width, x);
  }

  class Effect {
    const width: nat
    const height: nat
    /** Red and green of palette entry i (two sinusoids cast to uint8_t). */
    const paletteRG: int -> (Byte, Byte)
    /** The average of the three sinusoids at (x, y), cast to uint8_t. */
    const noise: (int, int) -> Byte
    var palette: array?<Color>
    var buffer: array?<Byte>
    ghost var Repr: set<object>

    ghost predicate Valid()
      reads this, Repr
    {
      && this in Repr
      && 0 < width && 0 < height
      && (palette != null ==> palette in Repr && palette.Length == PALETTE_SIZE)
      && (buffer != null ==> buffer in Repr && buffer.Length == width * height)
    }

    /** Both buffers are allocated: between init and close. */
    ghost predicate Ready()
      reads this
    {
      palette != null && buffer != null
    }

    /** The frame the current state renders. */
    ghost function CurrentFrame(): seq<Draw>
      reads this, Repr
      requires Valid() && Ready()
    {
      Frame(palette[..], buffer[..], width, height)
    }

    /** The static state before the first init: both `palette` and `plasma` are NULL. */
    constructor (width: nat, height: nat, paletteRG: int -> (Byte, Byte), noise: (int, int) -> Byte)
      requires 0 < width && 0 < height
      ensures Valid() && !Ready() && fresh(Repr)
      ensures this.width == width && this.height == height
      ensures this.paletteRG == paletteRG && this.noise == noise
    {
      this.width, this.height := width, height;
      this.paletteRG, this.noise := paletteRG, noise;
      palette, buffer := null, null;
      Repr := {this};
    }

    /** plasma_init: allocates both buffers, fills all 256 palette entries
        (blue is always 64) and writes the noise at the sampled entries only;
        `uninit` is what the allocation holds before it is written. */
    method Init(uninit: nat -> Byte)
      requires Valid()
      modifies this
      ensures Valid() && Ready() && fresh(palette) && fresh(buffer)
      ensures Repr == {this, palette, buffer}
      ensures forall i :: 0 <= i < PALETTE_SIZE ==>
        palette[i] == Rgb(paletteRG(i).0, paletteRG(i).1, 64)
      ensures buffer[..] == Initial(noise, uninit, width, height)
    {
      var plasma := NewBuffer(uninit);
      var colors := NewPalette();
      palette, buffer := colors, plasma;
      Repr := {this, palette, buffer};
    }

    /** The palette half of plasma_init. */
    method NewPalette() returns (colors: array<Color>)
      ensures fresh(colors) && colors.Length == PALETTE_SIZE
      ensures forall i :: 0 <= i < PALETTE_SIZE ==>
        colors[i] == Rgb(paletteRG(i).0, paletteRG(i).1, 64)
    {
      colors := new Color[PALETTE_SIZE](_ => Rgb(0, 0, 0));
      for i := 0 to PALETTE_SIZE
        invariant forall j :: 0 <= j < i ==> colors[j] == Rgb(paletteRG(j).0, paletteRG(j).1, 64)
      {
        var (r, g) := paletteRG(i);
        var b := 64;
        colors[i] := Rgb(r, g, b);
      }
    }

    /** The buffer half of plasma_init: the noise goes to every second column
        of every second row; the other entries keep what the allocation held. */
    method NewBuffer(uninit: nat -> Byte) returns (plasma: array<Byte>)
      requires 0 < width
      ensures fresh(plasma) && plasma.Length == width * height
      ensures plasma[..] == Initial(noise, uninit, width, height)
    {
      plasma := new Byte[width * height](k => uninit(k));
      assert plasma[..] == Unwritten(uninit, width * height);
      Stamp(plasma);
    }

    /** The fill loops of plasma_init, column by column. */
    method Stamp(plasma: array<Byte>)
      requires 0 < width && plasma.Length == width * height
      modifies plasma
      ensures plasma[..] == Stamped(old(plasma[..]), noise, width)
    {
      ghost var base := plasma[..];
      OverlayStart(base, NoiseFill(noise, width), width);
      var x := 0;
      while x < width
        invariant x % 2 == 0 && 0 <= x <= width + 1
        invariant plasma[..] == Overlay(base, NoiseFill(noise, width), width, x, 0)
      {
        StampColumn(plasma, base, x);
        x := x + STEP;
      }
      OverlayStamped(base, noise, width, x);
    }

    /** The inner fill loop of plasma_init: the noise at every second row of
        column x. */
    method StampColumn(plasma: array<Byte>, ghost base: seq<Byte>, x: nat)
      requires 0 < width && plasma.Length == width * height == |base|
      requires x < width && x % 2 == 0
      requires plasma[..] == Overlay(base, NoiseFill(noise, width), width, x, 0)
      modifies plasma
      ensures plasma[..] == Overlay(base, NoiseFill(noise, width), width, x + STEP, 0)
    {
      var y := 0;
      while y < height
        invariant y % 2 == 0 && 0 <= y <= height + 1
        invariant plasma[..] == Overlay(base, NoiseFill(noise, width), width, x, y)
      {
        var color := noise(x, y);
        StampStep(base, noise, width, height, x, y);
        var ptr := Grid.Offset(width, x, y);
        plasma[ptr] := color;
        y := y + STEP;
      }
      OverlayColumn(base, NoiseFill(noise, width), width, height, x, y);
    }

    /** plasma_animate: advances every sampled index by SPEED, modulo 256, in
        place. */
    method Animate()
      requires Valid() && Ready()
      modifies buffer
      ensures buffer[..] == Animated(old(buffer[..]), width)
    {
      ghost var base := buffer[..];
      OverlayStart(base, Cycled(base), width);
      var x := 0;
      while x < width
        invariant x % 2 == 0 && 0 <= x <= width + 1
        invariant buffer[..] == Overlay(base, Cycled(base), width, x, 0)
      {
        AnimateColumn(base, x);
        x := x + STEP;
      }
      OverlayEnd(base, Cycled(base), width, x);
    }

    /** The inner loop of plasma_animate: every second row of column x. */
    method AnimateColumn(ghost base: seq<Byte>, x: nat)
      requires Valid() && Ready() && |base| == width * height
      requires x < width && x % 2 == 0
      requires buffer[..] == Overlay(base, Cycled(base), width, x, 0)
      modifies buffer
      ensures buffer[..] == Overlay(base, Cycled(base), width, x + STEP, 0)
    {
      var y := 0;
      while y < height
        invariant y % 2 == 0 && 0 <= y <= height + 1
        invariant buffer[..] == Overlay(base, Cycled(base), width, x, y)
      {
        CycleStep(base, width, height, x, y);
        var ptr := Grid.Offset(width, x, y);
        var color := buffer[ptr];
        color := ToByte(color + SPEED);
        color := color % 256;
        buffer[ptr] := color;
        y := y + STEP;
      }
      OverlayColumn(base, Cycled(base), width, height, x, y);
    }

    /** plasma_render: one put_pixel per sampled coordinate, column by
        column, with the palette color of the stored index. */
    method Render() returns (ops: seq<Draw>)
      requires Valid() && Ready()
      ensures ops == CurrentFrame()
    {
      ghost var cell := Cells(palette[..], buffer[..], width, height);
      ops := [];
      var x := 0;
      ghost var i := 0;
      while x < width
        invariant x == STEP * i && i <= Grid.Half(width)
        invariant ops == Scan(cell, i, Grid.Half(height))
      {
        var column := Column(x, i);
        ops := ops + column;
        x, i := x + STEP, i + 1;
      }
    }

    /** The inner loop of plasma_render: the pixels of column x = 2 * i, top
        to bottom. */
    method Column(x: nat, ghost i: nat) returns (column: seq<Draw>)
      requires Valid() && Ready() && x == STEP * i && x < width
      ensures column == Line(Cells(palette[..], buffer[..], width, height), i, Grid.Half(height))
    {
      ghost var cell := Cells(palette[..], buffer[..], width, height);
      column := [];
      var y := 0;
      ghost var j := 0;
      while y < height
        invariant y == STEP * j && j <= Grid.Half(height)
        invariant column == Line(cell, i, j)
      {
        Grid.OffsetInBuffer(width, height, x, y);
        var ptr := Grid.Offset(width, x, y);
        var color := palette[buffer[ptr]];
        column := column + [PutPixel(x, y, color)];
        y, j := y + STEP, j + 1;
      }
    }

    /** plasma_close, which switch_task calls when it leaves plasma; its
        definition is not part of this model, and is taken to release both
        buffers as deform_close releases its table. */
    method Close()
      requires Valid()
      modifies this
      ensures Valid() && !Ready() && Repr == {this}
    {
      palette, buffer := null, null;
      Repr := {this};
    }
  }
}
