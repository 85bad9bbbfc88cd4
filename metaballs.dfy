/** The metaballs effect (main/metaballs.c): a fixed pool of balls that bounce
    around the display, and a render that shades 2x2 blocks by the field sum. */
module Metaballs {
  import opened CTypes
  import opened Sink
  import Grid

  /** Size of the static `balls` pool. */
  const POOL_SIZE := 16
  /** Number of pool entries in use. */
  const NUM_BALLS := 2
  const MIN_VELOCITY := 3
  const MAX_VELOCITY := 5
  const MIN_RADIUS := 22
  const MAX_RADIUS := 32
  const PIXEL_SIZE := 2
  /** Largest speed init can draw: `rand() % MAX_VELOCITY + MIN_VELOCITY`. */
  const TOP_SPEED := MAX_VELOCITY - 1 + MIN_VELOCITY

  datatype Vector2 = Vector2(x: Int16, y: Int16)

  datatype Ball = Ball(position: Vector2, velocity: Vector2, radius: Uint16, color: Uint16)

  /** The zero-initialised static entry. */
  const ZERO_BALL := Ball(Vector2(0, 0), Vector2(0, 0), 0, 0)

  /** Display sizes for which a ball near the box, at most one step outside,
      still has an int16 position. */
  predicate DisplayFits(width: int, height: int)
  {
    0 < width && width + TOP_SPEED < 0x8000 && 0 < height && height + TOP_SPEED < 0x8000
  }

  // ---------------------------------------------------------------------------
  // metaballs_init

  /** Ball `i` as metaballs_init sets it up, where `draws(k)` is the result of
      the k-th call to rand() made by that init (five calls per ball, in the
      order radius, x, y, x-velocity, y-velocity). */
  function Spawn(draws: nat -> nat, i: nat, width: nat, height: nat): Ball
    requires DisplayFits(width, height)
  {
    Ball(Vector2(draws(5 * i + 1) % width, draws(5 * i + 2) % height),
         Vector2(draws(5 * i + 3) % MAX_VELOCITY + MIN_VELOCITY,
                 draws(5 * i + 4) % MAX_VELOCITY + MIN_VELOCITY),
         draws(5 * i) % MAX_RADIUS + MIN_RADIUS,
         0xffff)
  }

  /** The ranges init draws from: radius in [22, 53], both velocity components
      in [3, 7] (always positive), position inside the display, color 0xffff;
      hence every spawned ball is settled. */
  lemma SpawnRanges(draws: nat -> nat, i: nat, width: nat, height: nat)
    requires DisplayFits(width, height)
    ensures var b := Spawn(draws, i, width, height);
      && MIN_RADIUS <= b.radius <= MIN_RADIUS + MAX_RADIUS - 1
      && MIN_VELOCITY <= b.velocity.x <= TOP_SPEED
      && MIN_VELOCITY <= b.velocity.y <= TOP_SPEED
      && 0 <= b.position.x < width && 0 <= b.position.y < height
      && b.color == 0xffff
      && BallSettled(b, width, height)
  {
  }

  // ---------------------------------------------------------------------------
  // metaballs_animate

  /** One axis of metaballs_animate: add the velocity to the position, then
      reverse the velocity when the new position is below 0 or above `limit`.
      Both assignments go through int16_t. */
  function MoveAxis(p: Int16, v: Int16, limit: int): (Int16, Int16)
  {
    var p' := ToInt16(p + v);
    (p', if p' < 0 || p' > limit then ToInt16(v * -1) else v)
  }

  /** One ball's step in metaballs_animate. */
  function Move(b: Ball, width: int, height: int): Ball
  {
    var (x, vx) := MoveAxis(b.position.x, b.velocity.x, width);
    var (y, vy) := MoveAxis(b.position.y, b.velocity.y, height);
    b.(position := Vector2(x, y), velocity := Vector2(vx, vy))
  }

  /** The bounce rule: when no int16 wrap-around happens, the velocity is
      negated exactly when the moved position is outside [0, limit], and kept
      otherwise; in particular a position equal to `limit` does not bounce. */
  lemma BounceRule(p: Int16, v: Int16, limit: int)
    requires v != 0 && -0x8000 <= p + v < 0x8000 && v != -0x8000
    ensures MoveAxis(p, v, limit).0 == p + v
    ensures MoveAxis(p, v, limit).1 == -v <==> (p + v < 0 || p + v > limit)
    ensures MoveAxis(p, v, limit).1 == v <==> 0 <= p + v <= limit
  {
  }

  /** animate only ever flips the sign of a velocity component: it never
      changes a speed, the radius or the color. */
  lemma MoveKeepsSpeed(b: Ball, width: int, height: int)
    requires b.velocity.x != -0x8000 && b.velocity.y != -0x8000
    ensures var b' := Move(b, width, height);
      && CAbs(b'.velocity.x) == CAbs(b.velocity.x)
      && CAbs(b'.velocity.y) == CAbs(b.velocity.y)
      && b'.radius == b.radius && b'.color == b.color
  {
  }

  /** The state a ball keeps on one axis once init has placed it: its speed is
      one init could draw, and when it is outside [0, limit] it is heading back
      and the next step lands it inside. */
  predicate Settled(p: int, v: int, limit: int)
  {
    && MIN_VELOCITY <= CAbs(v) <= TOP_SPEED
    && (p < 0 ==> v > 0 && 0 <= p + v <= limit)
    && (p > limit ==> v < 0 && 0 <= p + v <= limit)
  }

  predicate BallSettled(b: Ball, width: int, height: int)
  {
    Settled(b.position.x, b.velocity.x, width) && Settled(b.position.y, b.velocity.y, height)
  }

  /** A settled axis stays settled under the bounce rule, and a settled
      position is never more than one step outside the box. */
  lemma MoveAxisSettled(p: Int16, v: Int16, limit: int)
    requires 0 <= limit && limit + TOP_SPEED < 0x8000
    requires Settled(p, v, limit)
    ensures -TOP_SPEED <= p <= limit + TOP_SPEED
    ensures Settled(MoveAxis(p, v, limit).0, MoveAxis(p, v, limit).1, limit)
  {
    BounceRule(p, v, limit);
  }

  /** A ball that is outside the box on an axis returns inside on the next
      animate, without bouncing. */
  lemma OutsideReturns(p: Int16, v: Int16, limit: int)
    requires 0 <= limit && limit + TOP_SPEED < 0x8000
    requires Settled(p, v, limit) && (p < 0 || p > limit)
    ensures 0 <= MoveAxis(p, v, limit).0 <= limit
    ensures MoveAxis(p, v, limit).1 == v
  {
  }

  /** The ball after `n` animate calls. */
  function MoveN(b: Ball, n: nat, width: int, height: int): Ball
  {
    if n == 0 then b else Move(MoveN(b, n - 1, width, height), width, height)
  }

  /** However many frames run after init, a ball stays settled, so its
      position never strays more than TOP_SPEED (7) outside the box. */
  lemma {:induction false} MoveNSettled(b: Ball, n: nat, width: int, height: int)
    requires DisplayFits(width, height) && BallSettled(b, width, height)
    ensures BallSettled(MoveN(b, n, width, height), width, height)
    ensures var b' := MoveN(b, n, width, height);
      && -TOP_SPEED <= b'.position.x <= width + TOP_SPEED
      && -TOP_SPEED <= b'.position.y <= height + TOP_SPEED
  {
    if n > 0 {
      MoveNSettled(b, n - 1, width, height);
      var c := MoveN(b, n - 1, width, height);
      MoveAxisSettled(c.position.x, c.velocity.x, width);
      MoveAxisSettled(c.position.y, c.velocity.y, height);
    }
    var b' := MoveN(b, n, width, height);
    MoveAxisSettled(b'.position.x, b'.velocity.x, width);
    MoveAxisSettled(b'.position.y, b'.velocity.y, height);
  }

  // ---------------------------------------------------------------------------
  // metaballs_render

  /** The four bands of the field sum, checked from the top. */
  datatype Shade = Black | White | Green | Background

  /** The if-chain of metaballs_render. */
  function Band(sum: real): (s: Shade)
    ensures s == Black <==> sum > 0.65
    ensures s == White <==> 0.5 < sum <= 0.65
    ensures s == Green <==> 0.4 < sum <= 0.5
    ensures s == Background <==> sum <= 0.4
  {
    if sum > 0.65 then Black
    else if sum > 0.5 then White
    else if sum > 0.4 then Green
    else Background
  }

  /** Position of a band in the chain, lowest first. */
  function Level(s: Shade): nat
  {
    match s
    case Background => 0
    case Green => 1
    case White => 2
    case Black => 3
  }

  /** A larger field sum never falls into a lower band. */
  lemma BandMonotone(sum: real, sum': real)
    requires sum <= sum'
    ensures Level(Band(sum)) <= Level(Band(sum'))
  {
  }

  /** The colors of metaballs_render; `black` and `background` are both
      hagl_color(0, 0, 0). */
  function ShadeColor(s: Shade): Color
  {
    match s
    case Black => Rgb(0, 0, 0)
    case White => Rgb(255, 255, 255)
    case Green => Rgb(0, 255, 0)
    case Background => Rgb(0, 0, 0)
  }

  /** The fill_rectangle call for the block whose top-left pixel is (x, y),
      shaded by the band of the field sum there. */
  function Tile(field: (int, int) -> real, x: nat, y: nat): Draw
  {
    FillRect(x, y, x + PIXEL_SIZE - 1, y + PIXEL_SIZE - 1, ShadeColor(Band(field(x, y))))
  }

  /** The call a render makes for row o, column n of the block grid. */
  function Cells(field: (int, int) -> real): (nat, nat) -> Draw
  {
    (o: nat, n: nat) => Tile(field, PIXEL_SIZE * n, PIXEL_SIZE * o)
  }

  /** All calls of one metaballs_render over a width x height display: the
      loops run y outermost, both in steps of PIXEL_SIZE. */
  function Frame(field: (int, int) -> real, width: nat, height: nat): seq<Draw>
  {
    Scan(Cells(field), Grid.Half(height), Grid.Half(width))
  }

  /** The k-th call of a frame fills the block in row o, column n, where
      k = n + o * width / 2. */
  lemma FrameIndex(field: (int, int) -> real, width: nat, height: nat, k: nat) returns (o: nat, n: nat)
    requires k < |Frame(field, width, height)|
    ensures n < Grid.Half(width) && o < Grid.Half(height) && k == Grid.Offset(Grid.Half(width), n, o)
    ensures Frame(field, width, height)[k] == Tile(field, PIXEL_SIZE * n, PIXEL_SIZE * o)
  {
    o, n := ScanIndex(Cells(field), Grid.Half(height), Grid.Half(width), k);
  }

  /** Every block of a frame lies inside a display of even sizes. */
  lemma FrameInside(field: (int, int) -> real, width: nat, height: nat)
    requires width % 2 == 0 && height % 2 == 0
    ensures var ops := Frame(field, width, height);
      forall k :: 0 <= k < |ops| ==>
        ops[k].FillRect? && 0 <= ops[k].x0 && ops[k].x1 < width && 0 <= ops[k].y0 && ops[k].y1 < height
  {
    forall k | 0 <= k < |Frame(field, width, height)|
      ensures var d := Frame(field, width, height)[k];
        d.FillRect? && 0 <= d.x0 && d.x1 < width && 0 <= d.y0 && d.y1 < height
    {
      var o, n := FrameIndex(field, width, height, k);
    }
  }

  /** The blocks of a frame over a display of even sizes tile it: every pixel
      is covered by exactly one block, the one in row py / 2, column px / 2. */
  lemma FrameTiles(field: (int, int) -> real, width: nat, height: nat, px: nat, py: nat)
    requires width % 2 == 0 && height % 2 == 0
    requires px < width && py < height
    ensures var ops, t := Frame(field, width, height), Grid.Offset(width / 2, px / 2, py / 2);
      && t < |ops| && Covers(ops[t], px, py)
      && forall k :: 0 <= k < |ops| && k != t ==> !Covers(ops[k], px, py)
  {
    ScanAt(Cells(field), height / 2, width / 2, py / 2, px / 2);
    forall k | 0 <= k < |Frame(field, width, height)| && Covers(Frame(field, width, height)[k], px, py)
      ensures k == Grid.Offset(width / 2, px / 2, py / 2)
    {
      CoverAt(field, width, height, px, py, k);
    }
  }

  /** Only the block in row py / 2, column px / 2 covers pixel (px, py). */
  lemma CoverAt(field: (int, int) -> real, width: nat, height: nat, px: nat, py: nat, k: nat)
    requires k < |Frame(field, width, height)| && Covers(Frame(field, width, height)[k], px, py)
    ensures k == Grid.Offset(Grid.Half(width), px / 2, py / 2)
  {
    var o, n := FrameIndex(field, width, height, k);
    assert PIXEL_SIZE * n <= px <= PIXEL_SIZE * n + 1 && PIXEL_SIZE * o <= py <= PIXEL_SIZE * o + 1;
  }

  // ---------------------------------------------------------------------------
  // The effect's global state

  class Effect {
    const width: nat
    const height: nat
    /** The field sum at a pixel for the balls in use (a float kernel). */
    const fieldSum: (seq<Ball>, int, int) -> real
    /** The static `balls` pool. */
    const balls: array<Ball>

    ghost predicate Valid()
      reads this
    {
      DisplayFits(width, height) && balls.Length == POOL_SIZE
    }

    /** After init, every ball in use is settled. */
    ghost predicate Settled()
      reads this, balls
      requires Valid()
    {
      forall i :: 0 <= i < NUM_BALLS ==> BallSettled(balls[i], width, height)
    }

    /** The field of the balls currently in use. */
    ghost function Field(): (int, int) -> real
      reads this, balls
      requires Valid()
    {
      var inUse := balls[..NUM_BALLS];
      (x, y) => fieldSum(inUse, x, y)
    }

    /** The zero-initialised static state. */
    constructor (width: nat, height: nat, fieldSum: (seq<Ball>, int, int) -> real)
      requires DisplayFits(width, height)
      ensures Valid() && fresh(balls)
      ensures this.width == width && this.height == height && this.fieldSum == fieldSum
      ensures forall i :: 0 <= i < POOL_SIZE ==> balls[i] == ZERO_BALL
    {
      this.width, this.height, this.fieldSum := width, height, fieldSum;
      balls := new Ball[POOL_SIZE](_ => ZERO_BALL);
    }

    /** metaballs_init: draws a fresh state for each ball in use. */
    method Init(draws: nat -> nat)
      requires Valid()
      modifies balls
      ensures forall i :: 0 <= i < NUM_BALLS ==> balls[i] == Spawn(draws, i, width, height)
      ensures forall i :: NUM_BALLS <= i < POOL_SIZE ==> balls[i] == old(balls[i])
      ensures Settled()
    {
      var i := 0;
      while i < NUM_BALLS
        invariant 0 <= i <= NUM_BALLS
        invariant forall j :: 0 <= j < i ==> balls[j] == Spawn(draws, j, width, height)
        invariant forall j :: i <= j < POOL_SIZE ==> balls[j] == old(balls[j])
      {
        var radius := draws(5 * i) % MAX_RADIUS + MIN_RADIUS;
        var x := draws(5 * i + 1) % width;
        var y := draws(5 * i + 2) % height;
        var vx := draws(5 * i + 3) % MAX_VELOCITY + MIN_VELOCITY;
        var vy := draws(5 * i + 4) % MAX_VELOCITY + MIN_VELOCITY;
        balls[i] := Ball(Vector2(x, y), Vector2(vx, vy), radius, 0xffff);
        i := i + 1;
      }
      forall j | 0 <= j < NUM_BALLS
        ensures BallSettled(balls[j], width, height)
      {
        SpawnRanges(draws, j, width, height);
      }
    }

    /** metaballs_animate: moves the balls in use one step and leaves the rest
      of the pool alone. */
    method Animate()
      requires Valid()
      modifies balls
      ensures forall i :: 0 <= i < NUM_BALLS ==> balls[i] == Move(old(balls[i]), width, height)
      ensures forall i :: NUM_BALLS <= i < POOL_SIZE ==> balls[i] == old(balls[i])
      ensures old(Settled()) ==> Settled()
    {
      ghost var wasSettled := Settled();
      var i := 0;
      while i < NUM_BALLS
        invariant 0 <= i <= NUM_BALLS
        invariant forall j :: 0 <= j < i ==> balls[j] == Move(old(balls[j]), width, height)
        invariant forall j :: i <= j < POOL_SIZE ==> balls[j] == old(balls[j])
      {
        var b := balls[i];
        var x := ToInt16(b.position.x + b.velocity.x);
        var y := ToInt16(b.position.y + b.velocity.y);
        var vx: int, vy: int := b.velocity.x, b.velocity.y;
        if x < 0 || x > width {
          vx := ToInt16(vx * -1);
        }
        if y < 0 || y > height {
          vy := ToInt16(vy * -1);
        }
        assert (x, vx) == MoveAxis(b.position.x, b.velocity.x, width);
        assert (y, vy) == MoveAxis(b.position.y, b.velocity.y, height);
        balls[i] := b.(position := Vector2(x, y), velocity := Vector2(vx, vy));
        i := i + 1;
      }
      if wasSettled {
        forall j | 0 <= j < NUM_BALLS
          ensures BallSettled(balls[j], width, height)
        {
          var b := old(balls[j]);
          MoveAxisSettled(b.position.x, b.velocity.x, width);
          MoveAxisSettled(b.position.y, b.velocity.y, height);
        }
      }
    }

    /** metaballs_render: one 2x2 block per even coordinate, row by row, shaded
      by the band of the field sum at its top-left pixel. */
    method Render() returns (ops: seq<Draw>)
      requires Valid()
      ensures ops == Frame(Field(), width, height)
    {
      ghost var rows := Grid.Half(height);
      var inUse := balls[..NUM_BALLS];
      ops := [];
      var y := 0;
      ghost var o := 0;
      while y < height
        invariant y == PIXEL_SIZE * o && o <= rows
        invariant ops == Scan(Cells(Field()), o, Grid.Half(width))
      {
        var row := Row(inUse, y, o);
        ops := ops + row;
        y, o := y + PIXEL_SIZE, o + 1;
      }
    }

    /** The inner loop of metaballs_render: the blocks of row y = 2 * o, left
      to right. */
    method Row(inUse: seq<Ball>, y: nat, ghost o: nat) returns (row: seq<Draw>)
      requires Valid() && inUse == balls[..NUM_BALLS] && y == PIXEL_SIZE * o
      ensures row == Line(Cells(Field()), o, Grid.Half(width))
    {
      ghost var cell := Cells(Field());
      row := [];
      var x := 0;
      ghost var n := 0;
      while x < width
        invariant x == PIXEL_SIZE * n && n <= Grid.Half(width)
        invariant row == Line(cell, o, n)
      {
        var sum := fieldSum(inUse, x, y);
        var color := ShadeColor(Band(sum));
        row := row + [FillRect(x, y, x + PIXEL_SIZE - 1, y + PIXEL_SIZE - 1, color)];
        x, n := x + PIXEL_SIZE, n + 1;
      }
    }
  }
}
