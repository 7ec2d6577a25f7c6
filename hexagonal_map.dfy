/**
 * The map component itself: the tile objects, the grid dictionary that
 * GenerateHexGrid clears and fills in place, and ApplyPerlinNoise, which
 * writes a category into every tile object.
 *
 * The two foreign pieces are supplied when the component is created: the
 * flat-top layout formula of GridToWorldPosition (which uses float sqrt(3))
 * and Mathf.PerlinNoise. Both are left abstract.
 */
module HexagonalMap {
  import opened Tiles
  import opened GridBuilder
  import opened TerrainClassifier

  /** A tile record (HexagonalMap.cs:11-16); ApplyPerlinNoise updates its Type in place. */
  class HexTile {
    var Type: TileType
    var GridPosition: Vector2Int
    var WorldPosition: Vector3

    /** The object initializer of HexagonalMap.cs:60-65. */
    constructor (gridPosition: Vector2Int, worldPosition: Vector3, tileType: TileType)
      ensures GridPosition == gridPosition && WorldPosition == worldPosition && Type == tileType
    {
      GridPosition := gridPosition;
      WorldPosition := worldPosition;
      Type := tileType;
    }

    /** The value this tile holds now. */
    ghost function State(): TileState
      reads this
    {
      TileState(Type, GridPosition, WorldPosition)
    }
  }

  /** The map component (HexagonalMap.cs:18-36), without its scene-graph part. */
  class HexagonalMap {
    var mapRadius: int
    var hexSize: real
    var noiseScale: real
    var waterThreshold: real
    var mountainThreshold: real
    var noiseOffset: Vector2
    var hexGrid: map<Vector2Int, HexTile>

    /** The flat-top layout of GridToWorldPosition, taking the hex size and a cell. */
    const hexLayout: (real, Vector2Int) -> Vector2
    /** Mathf.PerlinNoise. */
    const perlinNoise: (real, real) -> real

    /**
     * Every tile is stored under its own coordinate, so no two keys share a
     * tile object.
     */
    ghost predicate Valid()
      reads this, hexGrid.Values
    {
      forall k :: k in hexGrid ==> hexGrid[k].GridPosition == k
    }

    /**
     * In a valid grid distinct coordinates hold distinct tile objects, so
     * writing the Type of one tile changes no other entry of the grid.
     */
    lemma TilesDistinct(k1: Vector2Int, k2: Vector2Int)
      requires Valid()
      requires k1 in hexGrid && k2 in hexGrid && k1 != k2
      ensures hexGrid[k1] != hexGrid[k2]
    {
    }

    /** The values of all tiles in the grid, by coordinate. */
    ghost function Snapshot(): map<Vector2Int, TileState>
      reads this, hexGrid.Values
    {
      map k | k in hexGrid :: hexGrid[k].State()
    }

    /** The noise fields as one value. */
    function Settings(): NoiseSettings
      reads this
    {
      NoiseSettings(noiseScale, waterThreshold, mountainThreshold, noiseOffset)
    }

    /** A fresh component with the inspector defaults of HexagonalMap.cs:21-28 and an empty grid (line 35). */
    constructor (hexLayout: (real, Vector2Int) -> Vector2, perlinNoise: (real, real) -> real)
      ensures Valid() && hexGrid == map[]
      ensures mapRadius == 10 && hexSize == 1.0
      ensures noiseScale == 0.1 && waterThreshold == 0.3 && mountainThreshold == 0.7
      ensures noiseOffset == Vector2(0.0, 0.0)
      ensures this.hexLayout == hexLayout && this.perlinNoise == perlinNoise
    {
      mapRadius := 10;
      hexSize := 1.0;
      noiseScale := 0.1;
      waterThreshold := 0.3;
      mountainThreshold := 0.7;
      noiseOffset := Vector2(0.0, 0.0);
      hexGrid := map[];
      this.hexLayout := hexLayout;
      this.perlinNoise := perlinNoise;
    }

    /**
     * GridToWorldPosition (HexagonalMap.cs:73-83): the layout of the cell for
     * the current hex size, on the plane z = 0.
     */
    function GridToWorldPosition(gridPos: Vector2Int): (w: Vector3)
      reads this
      ensures w.z == 0.0
      ensures Vector2(w.x, w.y) == hexLayout(hexSize, gridPos)
    {
      WorldPosition(hexLayout, hexSize, gridPos)
    }

    /**
     * Discards the grid and fills it with one new Plain tile for every cell
     * of the hexagon of radius mapRadius. The result does not depend on what
     * the grid held before.
     */
    method GenerateHexGrid()
      modifies this`hexGrid
      ensures Valid()
      ensures Snapshot() == FreshGrid(mapRadius, hexLayout, hexSize)
      ensures forall k :: k in hexGrid ==> fresh(hexGrid[k])
    {
      hexGrid := map[];
      var q := -mapRadius;
      while q <= mapRadius
        invariant -mapRadius <= q && (q <= mapRadius + 1 || q == -mapRadius)
        invariant forall k :: k in hexGrid <==> KeptBefore(mapRadius, q, -mapRadius, k)
        invariant forall k :: k in hexGrid ==> && fresh(hexGrid[k])
                                                && hexGrid[k].State() == TileState(Plain, k, GridToWorldPosition(k))
      {
        var r := -mapRadius;
        while r <= mapRadius
          invariant -mapRadius <= r <= mapRadius + 1
          invariant forall k :: k in hexGrid <==> KeptBefore(mapRadius, q, r, k)
          invariant forall k :: k in hexGrid ==> && fresh(hexGrid[k])
                                                  && hexGrid[k].State() == TileState(Plain, k, GridToWorldPosition(k))
        {
          var s := -q - r;
          if Abs(q) <= mapRadius && Abs(r) <= mapRadius && Abs(s) <= mapRadius {
            var gridPos := Vector2Int(q, r);
            var worldPos := GridToWorldPosition(gridPos);
            var tile := new HexTile(gridPos, worldPos, Plain);
            // Dictionary.Add throws on a key already present; it never is.
            assert gridPos !in hexGrid;
            hexGrid := hexGrid[gridPos := tile];
          }
          r := r + 1;
        }
        q := q + 1;
      }
      RegionIsGuard(mapRadius);
    }

    /**
     * Writes into every tile its category for the noise at its world
     * position. Only the Type of the tile objects may change; the keys, the
     * coordinates and the positions stay, and the tiles are visited in an
     * arbitrary order.
     */
    method ApplyPerlinNoise()
      modifies hexGrid.Values`Type
      ensures hexGrid == old(hexGrid)
      ensures old(Valid()) ==> Valid()
      ensures Snapshot() == ClassifyAll(old(Snapshot()), Settings(), perlinNoise)
    {
      var remaining := hexGrid.Values;
      while remaining != {}
        invariant remaining <= hexGrid.Values
        invariant forall k :: k in hexGrid && hexGrid[k] !in remaining ==>
                    hexGrid[k].Type == NoiseTypeAt(hexGrid[k].WorldPosition, Settings(), perlinNoise)
        decreases remaining
      {
        var tile :| tile in remaining;

        var noiseX := (tile.WorldPosition.x + noiseOffset.x) * noiseScale;
        var noiseY := (tile.WorldPosition.y + noiseOffset.y) * noiseScale;
        var noiseValue := perlinNoise(noiseX, noiseY);
        assert SamplePoint(tile.WorldPosition, Settings()) == Vector2(noiseX, noiseY);

        if noiseValue < waterThreshold {
          tile.Type := Water;
        } else if noiseValue > mountainThreshold {
          tile.Type := Mountain;
        } else {
          tile.Type := Plain;
        }
        assert tile.Type == Classify(noiseValue, waterThreshold, mountainThreshold)
                         == NoiseTypeAt(tile.WorldPosition, Settings(), perlinNoise);

        remaining := remaining - {tile};
      }
    }

    /**
     * GenerateMap (HexagonalMap.cs:39-44) without its VisualizeTiles step: the
     * resulting grid is a function of the configuration alone.
     */
    method GenerateMap()
      modifies this`hexGrid
      ensures Valid()
      ensures Snapshot() == ClassifyAll(FreshGrid(mapRadius, hexLayout, hexSize), Settings(), perlinNoise)
      ensures forall k :: k in hexGrid ==> fresh(hexGrid[k])
    {
      GenerateHexGrid();
      ApplyPerlinNoise();
    }
  }
}
