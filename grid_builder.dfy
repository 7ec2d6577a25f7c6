/**
 * The hexagonal region that GenerateHexGrid enumerates, stated as sets, and
 * the grid it builds, stated as a map from axial coordinate to tile value.
 *
 * The two nested loops of GenerateHexGrid walk the square
 * [-R, R] x [-R, R] row by row (q outer, r inner) and keep a cell when its
 * implied third cube coordinate s = -q - r is also within the radius. The
 * sets below name what has been kept at each point of that walk, so that the
 * loops can be proved against them and the hexagonal-number count can be
 * proved about them.
 */
module GridBuilder {
  import opened Tiles

  /** Mathf.Abs on an int. */
  function Abs(x: int): nat
  {
    if x < 0 then -x else x
  }

  /**
   * The guard of the inner loop (HexagonalMap.cs:54-55). Every cell it
   * accepts lies inside the ranges the two loops scan, so the loops reach it.
   */
  predicate InHex(radius: int, q: int, r: int)
    ensures InHex(radius, q, r) ==> 0 <= radius && -radius <= q <= radius && -radius <= r <= radius
  {
    var s := -q - r;
    Abs(q) <= radius && Abs(r) <= radius && Abs(s) <= radius
  }

  /** Every cell the two loops keep: the hexagon of the given radius. */
  ghost function Region(radius: int): set<Vector2Int>
  {
    set q, r | -radius <= q <= radius && -radius <= r <= radius && InHex(radius, q, r) :: Vector2Int(q, r)
  }

  /** The cells kept in the rows before row q. */
  ghost function RowsBefore(radius: int, q: int): set<Vector2Int>
  {
    set q', r' | -radius <= q' < q && -radius <= r' <= radius && InHex(radius, q', r') :: Vector2Int(q', r')
  }

  /** The cells kept in row q before column r. */
  ghost function RowBefore(radius: int, q: int, r: int): set<Vector2Int>
  {
    set r' | -radius <= r' < r && InHex(radius, q, r') :: Vector2Int(q, r')
  }

  /** The closed-form size of the hexagon: the centred hexagonal number. */
  function HexCount(radius: int): nat
  {
    if radius < 0 then 0 else 3 * radius * radius + 3 * radius + 1
  }

  /**
   * A cell lies in the region exactly when the guard holds of it: soundness
   * (every kept cell has |q|, |r|, |-q-r| at most the radius) and completeness
   * (every such cell is kept).
   */
  lemma RegionMembership(radius: int, c: Vector2Int)
    ensures c in Region(radius) <==> InHex(radius, c.x, c.y)
    ensures c in Region(radius) ==> Abs(c.x) <= radius && Abs(c.y) <= radius && Abs(-c.x - c.y) <= radius
  {
    if InHex(radius, c.x, c.y) {
      assert c == Vector2Int(c.x, c.y);
    }
  }

  /** A negative radius gives an empty region, with no error. */
  lemma RegionEmptyBelowZero(radius: int)
    requires radius < 0
    ensures Region(radius) == {}
  {
  }

  /** The region of radius 0 is the single cell (0, 0). */
  lemma RegionOfRadiusZero()
    ensures Region(0) == {Vector2Int(0, 0)}
  {
    assert InHex(0, 0, 0);
  }

  /** The region of radius 1 is the centre and its six neighbours. */
  lemma RegionOfRadiusOne()
    ensures Region(1) == {Vector2Int(0, 0), Vector2Int(1, 0), Vector2Int(1, -1), Vector2Int(0, -1),
                          Vector2Int(-1, 0), Vector2Int(-1, 1), Vector2Int(0, 1)}
  {
    var seven := {Vector2Int(0, 0), Vector2Int(1, 0), Vector2Int(1, -1), Vector2Int(0, -1),
                  Vector2Int(-1, 0), Vector2Int(-1, 1), Vector2Int(0, 1)};
    forall c | c in seven ensures c in Region(1) {
      RegionMembership(1, c);
    }
    forall c | c in Region(1) ensures c in seven {
      RegionMembership(1, c);
    }
  }

  /** The region has exactly 3R^2 + 3R + 1 cells for R >= 0, and none otherwise. */
  lemma RegionSize(radius: int)
    ensures |Region(radius)| == HexCount(radius)
  {
    if radius < 0 {
      RegionEmptyBelowZero(radius);
    } else {
      RowsComplete(radius, radius + 1);
      RowsSize(radius, radius + 1);
      RowsTotal(radius);
    }
  }

  // ---------------------------------------------------------------------
  // The walk of the two loops
  // ---------------------------------------------------------------------

  /**
   * The cells the two loops have kept when they reach cell (q, r): the cells
   * satisfying the guard that come before (q, r) row by row. The cell (q, r)
   * itself is not among them, so Dictionary.Add never meets an existing key.
   */
  predicate KeptBefore(radius: int, q: int, r: int, c: Vector2Int)
  {
    InHex(radius, c.x, c.y) && (c.x < q || (c.x == q && c.y < r))
  }

  /** The guard describes the region exactly. */
  lemma RegionIsGuard(radius: int)
    ensures forall c :: c in Region(radius) <==> InHex(radius, c.x, c.y)
  {
    forall c ensures c in Region(radius) <==> InHex(radius, c.x, c.y) {
      RegionMembership(radius, c);
    }
  }

  // ---------------------------------------------------------------------
  // Counting, row by row
  // ---------------------------------------------------------------------

  /** Nothing is kept before the first row. */
  lemma WalkStart(radius: int)
    ensures RowsBefore(radius, -radius) == {}
  {
  }

  /** The rows before q + 1 are those before q and row q itself. */
  lemma RowsStep(radius: int, q: int)
    requires -radius <= q
    ensures RowsBefore(radius, q + 1) == RowsBefore(radius, q) + RowBefore(radius, q, radius + 1)
    ensures RowsBefore(radius, q) !! RowBefore(radius, q, radius + 1)
  {
    var joined := RowsBefore(radius, q) + RowBefore(radius, q, radius + 1);
    forall c | c in joined ensures c in RowsBefore(radius, q + 1) {
      assert c == Vector2Int(c.x, c.y);
    }
    forall c | c in RowsBefore(radius, q + 1) ensures c in joined {
      assert c == Vector2Int(c.x, c.y);
      if c.x < q {
        assert c in RowsBefore(radius, q);
      } else {
        assert c in RowBefore(radius, q, radius + 1);
      }
    }
  }

  /** Once the outer loop has passed the radius, every cell of the region is kept. */
  lemma RowsComplete(radius: int, q: int)
    requires q > radius
    ensures RowsBefore(radius, q) == Region(radius)
  {
    forall c | c in Region(radius) ensures c in RowsBefore(radius, q) {
      assert c == Vector2Int(c.x, c.y);
    }
    forall c | c in RowsBefore(radius, q) ensures c in Region(radius) {
      assert c == Vector2Int(c.x, c.y);
    }
  }

  /** Cells (q, lo) .. (q, hi) of one row. */
  ghost function Interval(q: int, lo: int, hi: int): set<Vector2Int>
  {
    set r | lo <= r <= hi :: Vector2Int(q, r)
  }

  lemma {:induction false} IntervalSize(q: int, lo: int, hi: int)
    requires lo <= hi + 1
    ensures |Interval(q, lo, hi)| == hi - lo + 1
    decreases hi - lo
  {
    if lo <= hi {
      IntervalSize(q, lo, hi - 1);
      assert Interval(q, lo, hi) == Interval(q, lo, hi - 1) + {Vector2Int(q, hi)};
    } else {
      assert Interval(q, lo, hi) == {};
    }
  }

  /** The number of cells the inner loop keeps in row q. */
  function RowLength(radius: int, q: int): nat
  {
    if Abs(q) <= radius then 2 * radius + 1 - Abs(q) else 0
  }

  /** The number of cells kept in the rows before row q. */
  function RowsCount(radius: int, q: int): nat
    decreases q + radius
  {
    if q <= -radius then 0 else RowsCount(radius, q - 1) + RowLength(radius, q - 1)
  }

  lemma RowSize(radius: int, q: int)
    ensures |RowBefore(radius, q, radius + 1)| == RowLength(radius, q)
  {
    if Abs(q) <= radius {
      var lo := if q >= 0 then -radius else -radius - q;
      var hi := if q >= 0 then radius - q else radius;
      forall c | c in Interval(q, lo, hi) ensures c in RowBefore(radius, q, radius + 1) {
        assert c == Vector2Int(q, c.y);
      }
      forall c | c in RowBefore(radius, q, radius + 1) ensures c in Interval(q, lo, hi) {
        assert c == Vector2Int(q, c.y);
      }
      assert RowBefore(radius, q, radius + 1) == Interval(q, lo, hi);
      IntervalSize(q, lo, hi);
    } else {
      assert RowBefore(radius, q, radius + 1) == {};
    }
  }

  lemma {:induction false} RowsSize(radius: int, q: int)
    requires -radius <= q
    ensures |RowsBefore(radius, q)| == RowsCount(radius, q)
    decreases q + radius
  {
    if q == -radius {
      WalkStart(radius);
    } else {
      RowsSize(radius, q - 1);
      RowsStep(radius, q - 1);
      RowSize(radius, q - 1);
    }
  }

  /** Rows -R .. k-1 with k <= 0: a sum of R+1, R+2, ..., R+(k+R). */
  lemma {:induction false} RowsCountLow(radius: int, k: int)
    requires radius >= 0 && -radius <= k <= 0
    ensures 2 * RowsCount(radius, k) == (k + radius) * (2 * radius + 1 + k + radius)
    decreases k + radius
  {
    if k > -radius {
      RowsCountLow(radius, k - 1);
      var j := k + radius;
      assert RowLength(radius, k - 1) == radius + j;
      assert (j - 1) * (j + 2 * radius) + 2 * (radius + j) == j * (j + 2 * radius + 1);
    }
  }

  /** Rows -R .. k-1 with k >= 0: the rows above add 2R+1, 2R, ..., 2R+2-k. */
  lemma {:induction false} RowsCountHigh(radius: int, k: int)
    requires radius >= 0 && 0 <= k <= radius + 1
    ensures 2 * RowsCount(radius, k) == radius * (3 * radius + 1) + k * (4 * radius + 3 - k)
    decreases k
  {
    if k == 0 {
      RowsCountLow(radius, 0);
    } else {
      RowsCountHigh(radius, k - 1);
      assert RowLength(radius, k - 1) == 2 * radius + 2 - k;
      assert (k - 1) * (4 * radius + 4 - k) + 2 * (2 * radius + 2 - k) == k * (4 * radius + 3 - k);
    }
  }

  /** All 2R + 1 rows together hold the centred hexagonal number of cells. */
  lemma RowsTotal(radius: int)
    requires radius >= 0
    ensures RowsCount(radius, radius + 1) == HexCount(radius)
  {
    RowsCountHigh(radius, radius + 1);
    var k := radius + 1;
    assert 4 * radius + 3 - k == 3 * radius + 2;
    HexCountIdentity(radius);
  }

  lemma HexCountIdentity(radius: int)
    requires radius >= 0
    ensures radius * (3 * radius + 1) + (radius + 1) * (3 * radius + 2) == 2 * HexCount(radius)
  {
  }

  // ---------------------------------------------------------------------
  // The grid GenerateHexGrid builds
  // ---------------------------------------------------------------------

  /**
   * The world position of a cell (GridToWorldPosition, HexagonalMap.cs:73-83):
   * the flat-top layout formula, which depends on the hex size, is the
   * supplied function `layout`; the z component is always 0.
   */
  function WorldPosition(layout: (real, Vector2Int) -> Vector2, hexSize: real, c: Vector2Int): (w: Vector3)
    ensures w.z == 0.0
    ensures Vector2(w.x, w.y) == layout(hexSize, c)
  {
    var p := layout(hexSize, c);
    Vector3(p.x, p.y, 0.0)
  }

  /** What the grid holds once GenerateHexGrid returns: one Plain tile per cell of the region. */
  ghost function FreshGrid(radius: int, layout: (real, Vector2Int) -> Vector2, hexSize: real): (g: map<Vector2Int, TileState>)
    ensures forall c :: c in g <==> InHex(radius, c.x, c.y)
    ensures forall c :: c in g ==> g[c].Type == Plain && g[c].GridPosition == c
                                   && g[c].WorldPosition == WorldPosition(layout, hexSize, c)
  {
    RegionIsGuard(radius);
    map c | c in Region(radius) :: TileState(Plain, c, WorldPosition(layout, hexSize, c))
  }

  /**
   * The built grid: its keys are exactly the cells satisfying the guard, it
   * has 3R^2 + 3R + 1 tiles, and each tile sits at its own key and world
   * position with category Plain.
   */
  lemma FreshGridShape(radius: int, layout: (real, Vector2Int) -> Vector2, hexSize: real)
    ensures forall c :: c in FreshGrid(radius, layout, hexSize) <==> InHex(radius, c.x, c.y)
    ensures |FreshGrid(radius, layout, hexSize)| == HexCount(radius)
    ensures forall c :: c in FreshGrid(radius, layout, hexSize) ==>
              FreshGrid(radius, layout, hexSize)[c] == TileState(Plain, c, WorldPosition(layout, hexSize, c))
  {
    var grid := FreshGrid(radius, layout, hexSize);
    forall c ensures c in grid <==> InHex(radius, c.x, c.y) {
      RegionMembership(radius, c);
    }
    assert grid.Keys == Region(radius);
    RegionSize(radius);
  }
}
