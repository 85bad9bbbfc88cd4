/** The rotozoom effect (main/rotozoom.c): the `head` image rotated and
    zoomed by an angle that turns two degrees per frame, looked up in 360-entry
    sine and cosine tables. Floats are modelled as reals; the float to uint8_t
    cast is a parameter, since C leaves it undefined out of range. */
module Rotozoom {
  import opened CTypes
  import opened Sink
  import Grid

  const SPEED := 2
  const STEP := 2
  const DEGREES := 360

  /** One rotozoom_animate: `(angle + SPEED) % 360`. */
  function Turn(angle: nat): (a: nat)
    ensures a < DEGREES
    ensures angle < DEGREES ==> a == if angle + SPEED < DEGREES then angle + SPEED else angle + SPEED - DEGREES
  {
    (angle + SPEED) % DEGREES
  }

  /** The angle after `n` animate calls. */
  function TurnN(angle: nat, n: nat): nat
  {
    if n == 0 then angle else Turn(TurnN(angle, n - 1))
  }

  /** `n` animate calls advance a table index by 2 * n degrees, modulo 360. */
  lemma {:induction false} TurnNIs(angle: nat, n: nat)
    requires angle < DEGREES
    ensures TurnN(angle, n) == (angle + SPEED * n) % DEGREES
  {
    if n > 0 {
      TurnNIs(angle, n - 1);
      var b := angle + SPEED * (n - 1);
      assert TurnN(angle, n) == (b % DEGREES + SPEED) % DEGREES;
      ModShift(b % DEGREES + SPEED, DEGREES, b / DEGREES);
      assert b % DEGREES + SPEED + DEGREES * (b / DEGREES) == angle + SPEED * n;
    }
  }

  /** Starting from the zeroed static, the angle is always even. */
  lemma AlwaysEven(n: nat)
    ensures TurnN(0, n) % 2 == 0
  {
    TurnNIs(0, n);
    var t := SPEED * n;
    assert t == DEGREES * (t / DEGREES) + t % DEGREES;
  }

  /** 180 animate calls bring the angle back, and no fewer do. */
  lemma Period(angle: nat, n: nat)
    requires angle < DEGREES && 0 < n <= 180
    ensures TurnN(angle, n) == angle <==> n == 180
  {
    TurnNIs(angle, n);
    var t := angle + SPEED * n;
    if t % DEGREES == angle {
      assert t == angle + DEGREES * (t / DEGREES);
    }
    if n == 180 {
      assert t == angle + DEGREES;
    }
  }

  /** The float part of sampling, for sine s, cosine c and screen point
      (x, y): `(uint8_t)((x * c - y * s) * z)` and
      `(uint8_t)((x * s + y * c) * z)`, with `z = s * 1.2`, computed over the
      reals: the rounding of each float operation is not part of it. */
  function Rotation(castByte: real -> Byte, s: real, c: real, x: nat, y: nat): (Byte, Byte)
  {
    var z := s * 1.2;
    (castByte((x as real * c - y as real * s) * z), castByte((x as real * s + y as real * c) * z))
  }

  /** The rotation as a kernel value an effect is built with. */
  function Rotator(castByte: real -> Byte): (real, real, nat, nat) -> (Byte, Byte)
  {
    (s: real, c: real, x: nat, y: nat) => Rotation(castByte, s, c, x, y)
  }

  /** Negating sine and cosine negates both the rotated point and the zoom,
      so both products keep their value. */
  lemma RotationHalfTurn(castByte: real -> Byte, s: real, c: real, x: nat, y: nat)
    ensures Rotation(castByte, -s, -c, x, y) == Rotation(castByte, s, c, x, y)
  {
    var xr, yr := x as real, y as real;
    assert (xr * -c - yr * -s) * (-s * 1.2) == (xr * c - yr * s) * (s * 1.2);
    assert (xr * -s + yr * -c) * (-s * 1.2) == (xr * s + yr * c) * (s * 1.2);
  }

  /** With a zero sine the zoom is zero, so every point samples the cast of 0. */
  lemma RotationAtZero(castByte: real -> Byte, c: real, x: nat, y: nat)
    ensures Rotation(castByte, 0.0, c, x, y) == (castByte(0.0), castByte(0.0))
  {
    var xr, yr := x as real, y as real;
    assert (xr * c - yr * 0.0) * (0.0 * 1.2) == 0.0;
    assert (xr * 0.0 + yr * c) * (0.0 * 1.2) == 0.0;
  }

  /** The head coordinate of screen point (x, y): the two casts reduced
      modulo HEAD_WIDTH and HEAD_HEIGHT. */
  function TexCoord(head: Texture, rotate: (real, real, nat, nat) -> (Byte, Byte), s: real, c: real, x: nat, y: nat): (uv: (nat, nat))
    requires head.Valid()
    ensures uv.0 < head.width && uv.1 < head.height
  {
    var r := rotate(s, c, x, y);
    (r.0 % head.width, r.1 % head.height)
  }

  /** The fill_rectangle call for the STEP x STEP square at (x, y). */
  function TileAt(head: Texture, rotate: (real, real, nat, nat) -> (Byte, Byte), s: real, c: real, x: nat, y: nat): Draw
    requires head.Valid()
  {
    var uv := TexCoord(head, rotate, s, c, x, y);
    FillRect(x, y, x + STEP - 1, y + STEP - 1, head.At(uv.0, uv.1))
  }

  /** The call a render makes for column i, row j of the sampling grid. */
  function Cells(head: Texture, rotate: (real, real, nat, nat) -> (Byte, Byte), s: real, c: real): (nat, nat) -> Draw
    requires head.Valid()
  {
    (i: nat, j: nat) => TileAt(head, rotate, s, c, STEP * i, STEP * j)
  }

  /** All calls of one rotozoom_render for sine s and cosine c: x outermost,
      y inner, both in steps of STEP. */
  function Frame(head: Texture, rotate: (real, real, nat, nat) -> (Byte, Byte), s: real, c: real, width: nat, height: nat): seq<Draw>
    requires head.Valid()
  {
    Scan(Cells(head, rotate, s, c), Grid.Half(width), Grid.Half(height))
  }

  /** A render draws one square per sampled coordinate: the square at
      (2 * i, 2 * j) lies inside the display and is drawn at position
      i * rows + j. */
  lemma FrameAt(head: Texture, rotate: (real, real, nat, nat) -> (Byte, Byte), s: real, c: real, width: nat, height: nat, i: nat, j: nat)
    requires head.Valid()
    requires i < Grid.Half(width) && j < Grid.Half(height)
    ensures 2 * i < width && 2 * j < height
    ensures Grid.Offset(Grid.Half(height), j, i) < |Frame(head, rotate, s, c, width, height)|
    ensures Frame(head, rotate, s, c, width, height)[Grid.Offset(Grid.Half(height), j, i)]
         == TileAt(head, rotate, s, c, 2 * i, 2 * j)
  {
    ScanAt(Cells(head, rotate, s, c), Grid.Half(width), Grid.Half(height), i, j);
  }

  /** Where the rotation sends every point to (0, 0), every square shows the
      head's top-left color. */
  lemma ZeroZoom(head: Texture, rotate: (real, real, nat, nat) -> (Byte, Byte), s: real, c: real, width: nat, height: nat)
    requires head.Valid()
    requires forall x: nat, y: nat :: rotate(s, c, x, y) == (0, 0)
    ensures forall k :: 0 <= k < |Frame(head, rotate, s, c, width, height)| ==>
      Frame(head, rotate, s, c, width, height)[k].color == head.At(0, 0)
  {
    var cell := Cells(head, rotate, s, c);
    forall o: nat, n: nat
      ensures cell(o, n).color == head.At(0, 0)
    {
      var r := rotate(s, c, STEP * o, STEP * n);
      assert r.0 % head.width == 0 && r.1 % head.height == 0;
    }
    ScanEvery(cell, Grid.Half(width), Grid.Half(height), (d: Draw) => d.color == head.At(0, 0));
  }

  /** Where the sine is zero (angle 0, and any render before init, when the
      tables are still zero) and the cast maps 0.0 to 0, the rotation
      zooms to a single texel. */
  lemma ZeroSine(head: Texture, castByte: real -> Byte, c: real, width: nat, height: nat)
    requires head.Valid() && castByte(0.0) == 0
    ensures forall k :: 0 <= k < |Frame(head, Rotator(castByte), 0.0, c, width, height)| ==>
      Frame(head, Rotator(castByte), 0.0, c, width, height)[k].color == head.At(0, 0)
  {
    forall x: nat, y: nat
      ensures Rotator(castByte)(0.0, c, x, y) == (0, 0)
    {
      RotationAtZero(castByte, c, x, y);
    }
    ZeroZoom(head, Rotator(castByte), 0.0, c, width, height);
  }

  /** A rotation that ignores a joint sign flip of sine and cosine draws the
      same frame a half turn on. */
  lemma HalfTurn(head: Texture, rotate: (real, real, nat, nat) -> (Byte, Byte), s: real, c: real, width: nat, height: nat)
    requires head.Valid()
    requires forall x: nat, y: nat :: rotate(-s, -c, x, y) == rotate(s, c, x, y)
    ensures Frame(head, rotate, -s, -c, width, height) == Frame(head, rotate, s, c, width, height)
  {
    ScanAgree(Cells(head, rotate, -s, -c), Cells(head, rotate, s, c), Grid.Half(width), Grid.Half(height));
  }

  /** Negating both sine and cosine leaves the rotation's frame unchanged.
      The table entries half a turn apart are negations only up to float
      rounding, so this says nothing exact about frames 90 apart. */
  lemma FloatHalfTurn(head: Texture, castByte: real -> Byte, s: real, c: real, width: nat, height: nat)
    requires head.Valid()
    ensures Frame(head, Rotator(castByte), -s, -c, width, height) == Frame(head, Rotator(castByte), s, c, width, height)
  {
    forall x: nat, y: nat
      ensures Rotator(castByte)(-s, -c, x, y) == Rotator(castByte)(s, c, x, y)
    {
      RotationHalfTurn(castByte, s, c, x, y);
    }
    HalfTurn(head, Rotator(castByte), s, c, width, height);
  }

  class Effect {
    const width: nat
    const height: nat
    const head: Texture
    /** sin and cos of i degrees, as the tables store them. */
    const sine: int -> real
    const cosine: int -> real
    /** The rotation and zoom in floats, ending in the float to uint8_t
        conversion of the target; `Rotator(castByte)` is the same formula
        over the reals. */
    const rotate: (real, real, nat, nat) -> (Byte, Byte)
    const sinlut: array<real>
    const coslut: array<real>
    var angle: Uint16

    ghost predicate Valid()
      reads this
    {
      && head.Valid()
      && sinlut.Length == DEGREES && coslut.Length == DEGREES
      && sinlut != coslut
      && angle < DEGREES
    }

    /** Both tables hold the kernel values for every degree. */
    ghost predicate Tabulated()
      reads this, sinlut, coslut
      requires Valid()
    {
      forall i :: 0 <= i < DEGREES ==> sinlut[i] == sine(i) && coslut[i] == cosine(i)
    }

    /** What the current angle renders. */
    ghost function CurrentFrame(): seq<Draw>
      reads this, sinlut, coslut
      requires Valid()
    {
      Frame(head, rotate, sinlut[angle], coslut[angle], width, height)
    }

    /** The statics before the first init: angle 0 and zeroed tables. */
    constructor (width: nat, height: nat, head: Texture, sine: int -> real, cosine: int -> real, rotate: (real, real, nat, nat) -> (Byte, Byte))
      requires head.Valid()
      ensures Valid() && angle == 0
      ensures fresh(sinlut) && fresh(coslut)
      ensures forall i :: 0 <= i < DEGREES ==> sinlut[i] == 0.0 && coslut[i] == 0.0
      ensures this.width == width && this.height == height && this.head == head
      ensures this.sine == sine && this.cosine == cosine && this.rotate == rotate
    {
      this.width, this.height, this.head := width, height, head;
      this.sine, this.cosine, this.rotate := sine, cosine, rotate;
      sinlut := new real[DEGREES](_ => 0.0);
      coslut := new real[DEGREES](_ => 0.0);
      angle := 0;
    }

    /** rotozoom_init: fills entries 0 to 359 of both tables; the angle is
        left alone. */
    method Init()
      requires Valid()
      modifies sinlut, coslut
      ensures Valid() && Tabulated()
    {
      var i := 0;
      while i < DEGREES
        invariant 0 <= i <= DEGREES
        invariant forall j :: 0 <= j < i ==> sinlut[j] == sine(j) && coslut[j] == cosine(j)
      {
        sinlut[i] := sine(i);
        coslut[i] := cosine(i);
        i := i + 1;
      }
    }

    /** rotozoom_animate. */
    method Animate()
      requires Valid()
      modifies this
      ensures Valid() && angle == Turn(old(angle))
    {
      angle := (angle + SPEED) % DEGREES;
    }

    /** rotozoom_render: one STEP x STEP square per sampled coordinate,
        column by column. */
    method Render() returns (ops: seq<Draw>)
      requires Valid()
      ensures ops == CurrentFrame()
    {
      var s := sinlut[angle];
      var c := coslut[angle];
      ghost var cell := Cells(head, rotate, s, c);
      ghost var cols := Grid.Half(width);
      ops := [];
      var x := 0;
      ghost var i := 0;
      while x < width
        invariant x == 2 * i && i <= cols
        invariant ops == Scan(cell, i, Grid.Half(height))
      {
        var column := Column(s, c, x, i);
        ops := ops + column;
        x, i := x + STEP, i + 1;
      }
    }

    /** The inner loop of rotozoom_render: the squares of column x = 2 * i,
        top to bottom. */
    method Column(s: real, c: real, x: nat, ghost i: nat) returns (column: seq<Draw>)
      requires Valid() && x == 2 * i
      ensures column == Line(Cells(head, rotate, s, c), i, Grid.Half(height))
    {
      ghost var cell := Cells(head, rotate, s, c);
      column := [];
      var y := 0;
      ghost var j := 0;
      while y < height
        invariant y == 2 * j && j <= Grid.Half(height)
        invariant column == Line(cell, i, j)
      {
        var uv := TexCoord(head, rotate, s, c, x, y);
        var color := head.At(uv.0, uv.1);
        column := column + [FillRect(x, y, x + STEP - 1, y + STEP - 1, color)];
        y, j := y + STEP, j + 1;
      }
    }
  }
}
