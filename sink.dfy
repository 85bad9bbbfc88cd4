/** The display library the effects draw into, seen only from the outside:
    each render returns the sequence of drawing calls it makes, and the texture
    the warp effects sample is a read-only array of colors. */
module Sink {
  import opened CTypes
  import Grid

  /** A color as built by hagl_color(r, g, b). */
  datatype Color = Rgb(r: Byte, g: Byte, b: Byte)

  /** One call into the display library. */
  datatype Draw =
    | PutPixel(x: int, y: int, color: Color)
    | FillRect(x0: int, y0: int, x1: int, y1: int, color: Color)

  /** A fill_rectangle call covers the inclusive box from (x0, y0) to (x1, y1). */
  predicate Covers(d: Draw, px: int, py: int)
  {
    match d
    case PutPixel(x, y, _) => px == x && py == y
    case FillRect(x0, y0, x1, y1, _) => x0 <= px <= x1 && y0 <= py <= y1
  }

  /** The `head` image: `width * height` colors stored row by row. */
  datatype Texture = Texture(width: nat, height: nat, texels: seq<Color>)
  {
    predicate Valid()
    {
      width > 0 && height > 0 && |texels| == width * height
    }

    /** The color at column u, row v: `head + HEAD_WIDTH * v + u`, in colors. */
    function At(u: nat, v: nat): Color
      requires Valid() && u < width && v < height
    {
      Grid.OffsetInBuffer(width, height, u, v);
      texels[u + width * v]
    }
  }

  // A render is two nested loops over a grid of sampled coordinates. With
  // call cell(o, n) made at outer index o and inner index n, the calls of the
  // whole render are the lines of the outer loop one after another.

  /** The first `count` calls of the inner loop at outer index o. */
  function Line(cell: (nat, nat) --> Draw, o: nat, count: nat): (ops: seq<Draw>)
    requires forall n: nat :: n < count ==> cell.requires(o, n)
    ensures |ops| == count
  {
    if count == 0 then [] else Line(cell, o, count - 1) + [cell(o, count - 1)]
  }

  /** The calls of the first `outer` passes of the outer loop, each running
      the inner loop `inner` times. */
  function Scan(cell: (nat, nat) --> Draw, outer: nat, inner: nat): seq<Draw>
    requires forall o: nat, n: nat :: o < outer && n < inner ==> cell.requires(o, n)
  {
    if outer == 0 then [] else Scan(cell, outer - 1, inner) + Line(cell, outer - 1, inner)
  }

  /** Call n of a line is cell(o, n). */
  lemma {:induction false} LineAt(cell: (nat, nat) --> Draw, o: nat, count: nat, n: nat)
    requires forall n: nat :: n < count ==> cell.requires(o, n)
    requires n < count
    ensures Line(cell, o, count)[n] == cell(o, n)
  {
    if n < count - 1 {
      LineAt(cell, o, count - 1, n);
    }
  }

  /** A scan makes `inner` calls per pass. */
  lemma {:induction false} ScanLength(cell: (nat, nat) --> Draw, outer: nat, inner: nat)
    requires forall o: nat, n: nat :: o < outer && n < inner ==> cell.requires(o, n)
    ensures |Scan(cell, outer, inner)| == Grid.Offset(inner, 0, outer)
  {
    if outer > 0 {
      ScanLength(cell, outer - 1, inner);
      assert inner * (outer - 1) + inner == inner * outer;
    }
  }

  /** The call for (o, n) comes at position `o * inner + n`. */
  lemma {:induction false} ScanAt(cell: (nat, nat) --> Draw, outer: nat, inner: nat, o: nat, n: nat)
    requires forall o: nat, n: nat :: o < outer && n < inner ==> cell.requires(o, n)
    requires o < outer && n < inner
    ensures Grid.Offset(inner, n, o) < |Scan(cell, outer, inner)|
    ensures Scan(cell, outer, inner)[Grid.Offset(inner, n, o)] == cell(o, n)
  {
    ScanLength(cell, outer - 1, inner);
    if o < outer - 1 {
      ScanAt(cell, outer - 1, inner, o, n);
    } else {
      LineAt(cell, o, inner, n);
    }
  }

  /** Every call of the scan is the call of one grid point, found by dividing
      its position by the inner count. */
  lemma ScanIndex(cell: (nat, nat) --> Draw, outer: nat, inner: nat, k: nat) returns (o: nat, n: nat)
    requires forall o: nat, n: nat :: o < outer && n < inner ==> cell.requires(o, n)
    requires k < |Scan(cell, outer, inner)|
    ensures o < outer && n < inner && k == Grid.Offset(inner, n, o)
    ensures Scan(cell, outer, inner)[k] == cell(o, n)
  {
    ScanLength(cell, outer, inner);
    Grid.OffsetOfIndex(inner, outer, k);
    o, n := k / inner, k % inner;
    ScanAt(cell, outer, inner, o, n);
  }

  /** Cells that agree on the grid give the same calls. */
  lemma {:induction false} ScanAgree(cell: (nat, nat) --> Draw, cell': (nat, nat) --> Draw, outer: nat, inner: nat)
    requires forall o: nat, n: nat :: o < outer && n < inner ==>
      cell.requires(o, n) && cell'.requires(o, n) && cell(o, n) == cell'(o, n)
    ensures Scan(cell, outer, inner) == Scan(cell', outer, inner)
  {
    if outer > 0 {
      ScanAgree(cell, cell', outer - 1, inner);
      LineAgree(cell, cell', outer - 1, inner);
    }
  }

  lemma {:induction false} LineAgree(cell: (nat, nat) --> Draw, cell': (nat, nat) --> Draw, o: nat, count: nat)
    requires forall n: nat :: n < count ==> cell.requires(o, n) && cell'.requires(o, n) && cell(o, n) == cell'(o, n)
    ensures Line(cell, o, count) == Line(cell', o, count)
  {
    if count > 0 {
      LineAgree(cell, cell', o, count - 1);
    }
  }

  /** What holds of every cell on the grid holds of every call of the scan. */
  lemma ScanEvery(cell: (nat, nat) --> Draw, outer: nat, inner: nat, p: Draw -> bool)
    requires forall o: nat, n: nat :: o < outer && n < inner ==> cell.requires(o, n) && p(cell(o, n))
    ensures forall k :: 0 <= k < |Scan(cell, outer, inner)| ==> p(Scan(cell, outer, inner)[k])
  {
    forall k | 0 <= k < |Scan(cell, outer, inner)|
      ensures p(Scan(cell, outer, inner)[k])
    {
      var o, n := ScanIndex(cell, outer, inner, k);
    }
  }
}
