/** Row-major flat indexing of a width x height buffer, and the sampling grid
    of a C loop `for (c = 0; c < extent; c += 2)`. */
module Grid {

  /** Flat offset of (x, y) in a buffer whose rows are `width` long: the
      `x + DISPLAY_WIDTH * y` of the effects' `ptr` arithmetic. */
  function Offset(width: nat, x: nat, y: nat): nat
  {
    x + width * y
  }

  /** An offset of a coordinate inside a width x height buffer lies inside the
      buffer, and the coordinate can be read back from it. */
  lemma OffsetInBuffer(width: nat, height: nat, x: nat, y: nat)
    requires x < width && y < height
    ensures Offset(width, x, y) < width * height
    ensures Offset(width, x, y) % width == x
    ensures Offset(width, x, y) / width == y
  {
    assert width * y + width == width * (y + 1);
    assert width * (y + 1) <= width * height;
    DivModUnique(Offset(width, x, y), width, y, x);
  }

  /** Every offset inside the buffer is the offset of exactly one coordinate. */
  lemma OffsetOfIndex(width: nat, height: nat, k: nat)
    requires k < width * height
    ensures width > 0 && k % width < width && k / width < height
    ensures Offset(width, k % width, k / width) == k
  {
    assert width > 0;
  }

  /** Inside the buffer, the offset of (x, y) is the one index whose column
      is x and whose row is y. */
  lemma OffsetIsCoordinate(width: nat, height: nat, x: nat, y: nat)
    requires x < width && y < height
    ensures Offset(width, x, y) < width * height
    ensures forall k :: 0 <= k < width * height ==>
      (k == Offset(width, x, y) <==> k % width == x && k / width == y)
  {
    OffsetInBuffer(width, height, x, y);
    forall k | 0 <= k < width * height
      ensures k == Offset(width, x, y) <==> k % width == x && k / width == y
    {
      OffsetOfIndex(width, height, k);
    }
  }

  lemma DivModUnique(a: nat, d: nat, q: nat, r: nat)
    requires 0 <= r < d && a == d * q + r
    ensures a / d == q && a % d == r
  {
    var q', r' := a / d, a % d;
    assert a == d * q' + r';
    if q' < q {
      MulAtLeast(d, q - q');
    } else if q' > q {
      MulAtLeast(d, q' - q);
    }
  }

  lemma MulAtLeast(d: nat, m: int)
    requires m >= 1
    ensures d * m >= d
  {
    assert d * m == d + d * (m - 1);
  }

  /** How many coordinates 0, 2, 4, ... a loop `for (c = 0; c < extent; c += 2)` visits. */
  function Half(extent: nat): (n: nat)
    ensures extent <= 2 * n <= extent + 1
  {
    (extent + 1) / 2
  }
}
