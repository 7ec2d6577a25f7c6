/**
 * The threshold classification of ApplyPerlinNoise, stated on values: the
 * noise sample point of a tile, the ordered strict-inequality rule, and the
 * reclassification of a whole grid, together with the facts that only the
 * category changes and that the order in which tiles are visited does not
 * matter.
 *
 * Mathf.PerlinNoise is a foreign function; it is a parameter `noise` here,
 * and nothing is assumed about its range or smoothness.
 */
module TerrainClassifier {
  import opened Tiles

  /** The noise fields of the map component (HexagonalMap.cs:25-28). */
  datatype NoiseSettings = NoiseSettings(noiseScale: real, waterThreshold: real, mountainThreshold: real, noiseOffset: Vector2)

  /**
   * The point at which the noise is sampled for a tile (HexagonalMap.cs:90-91):
   * the world (x, y) moved by the offset, then scaled. With scale 0 every
   * tile samples the same point.
   */
  function SamplePoint(worldPosition: Vector3, settings: NoiseSettings): (p: Vector2)
    ensures settings.noiseScale == 0.0 ==> p == Vector2(0.0, 0.0)
  {
    Vector2((worldPosition.x + settings.noiseOffset.x) * settings.noiseScale,
            (worldPosition.y + settings.noiseOffset.y) * settings.noiseScale)
  }

  /** The height of a tile plays no part in where the noise is sampled. */
  lemma SamplePointIgnoresHeight(worldPosition: Vector3, z: real, settings: NoiseSettings)
    ensures SamplePoint(worldPosition.(z := z), settings) == SamplePoint(worldPosition, settings)
  {
  }

  /**
   * Moving the offset by d samples every tile where a tile moved by d would
   * be sampled: the offset scrolls the noise pattern across the map.
   */
  lemma SamplePointOffset(worldPosition: Vector3, d: Vector2, settings: NoiseSettings)
    ensures SamplePoint(worldPosition, settings.(noiseOffset := Vector2(settings.noiseOffset.x + d.x, settings.noiseOffset.y + d.y)))
         == SamplePoint(Vector3(worldPosition.x + d.x, worldPosition.y + d.y, worldPosition.z), settings)
  {
  }

  /**
   * The category for a noise value: Water strictly below the water
   * threshold, otherwise Mountain strictly above the mountain threshold,
   * otherwise Plain. The three cases partition the noise axis.
   */
  function Classify(noiseValue: real, waterThreshold: real, mountainThreshold: real): (t: TileType)
    ensures t == Water <==> noiseValue < waterThreshold
    ensures t == Mountain <==> waterThreshold <= noiseValue && mountainThreshold < noiseValue
    ensures t == Plain <==> waterThreshold <= noiseValue <= mountainThreshold
  {
    if noiseValue < waterThreshold then Water
    else if noiseValue > mountainThreshold then Mountain
    else Plain
  }

  /** The position of a category along the noise axis. */
  function Rank(t: TileType): nat
  {
    match t
    case Water => 0
    case Plain => 1
    case Mountain => 2
  }

  /** A higher noise value never gives a lower category, whatever the thresholds. */
  lemma ClassifyMonotone(n1: real, n2: real, waterThreshold: real, mountainThreshold: real)
    requires n1 <= n2
    ensures Rank(Classify(n1, waterThreshold, mountainThreshold)) <= Rank(Classify(n2, waterThreshold, mountainThreshold))
  {
  }

  /**
   * Ties: a noise value equal to a threshold is not strictly beyond it, so it
   * gives Plain unless the thresholds are inverted, in which case the other
   * branch decides.
   */
  lemma ClassifyAtThresholds(waterThreshold: real, mountainThreshold: real)
    ensures Classify(waterThreshold, waterThreshold, mountainThreshold)
         == (if mountainThreshold < waterThreshold then Mountain else Plain)
    ensures Classify(mountainThreshold, waterThreshold, mountainThreshold)
         == (if mountainThreshold < waterThreshold then Water else Plain)
  {
  }

  /** With inverted thresholds the Plain band is empty and Water takes precedence. */
  lemma InvertedThresholds(noiseValue: real, waterThreshold: real, mountainThreshold: real)
    requires mountainThreshold < waterThreshold
    ensures Classify(noiseValue, waterThreshold, mountainThreshold) != Plain
    ensures noiseValue < waterThreshold ==> Classify(noiseValue, waterThreshold, mountainThreshold) == Water
  {
  }

  /**
   * The category a tile at the given world position receives, stated by the
   * noise value at its sample point.
   */
  function NoiseTypeAt(worldPosition: Vector3, settings: NoiseSettings, noise: (real, real) -> real): (t: TileType)
    ensures var p := SamplePoint(worldPosition, settings);
            t == Water <==> noise(p.x, p.y) < settings.waterThreshold
    ensures var p := SamplePoint(worldPosition, settings);
            t == Mountain <==> settings.waterThreshold <= noise(p.x, p.y) && settings.mountainThreshold < noise(p.x, p.y)
    ensures var p := SamplePoint(worldPosition, settings);
            t == Plain <==> settings.waterThreshold <= noise(p.x, p.y) <= settings.mountainThreshold
  {
    var p := SamplePoint(worldPosition, settings);
    Classify(noise(p.x, p.y), settings.waterThreshold, settings.mountainThreshold)
  }

  /**
   * One tile after classification: its coordinate and world position are
   * kept, and its new category depends on its world position alone, not on
   * its previous category.
   */
  function Reclassify(tile: TileState, settings: NoiseSettings, noise: (real, real) -> real): (t: TileState)
    ensures t.GridPosition == tile.GridPosition && t.WorldPosition == tile.WorldPosition
    ensures t.Type == NoiseTypeAt(tile.WorldPosition, settings, noise)
  {
    tile.(Type := NoiseTypeAt(tile.WorldPosition, settings, noise))
  }

  /** The grid with the tiles at the keys in `done` classified and the others as they were. */
  function ClassifySome(grid: map<Vector2Int, TileState>, done: set<Vector2Int>,
                        settings: NoiseSettings, noise: (real, real) -> real): (g: map<Vector2Int, TileState>)
    ensures g.Keys == grid.Keys
    ensures forall k :: k in g ==> g[k] == if k in done then Reclassify(grid[k], settings, noise) else grid[k]
  {
    map k | k in grid :: if k in done then Reclassify(grid[k], settings, noise) else grid[k]
  }

  /** The grid with every tile classified. */
  function ClassifyAll(grid: map<Vector2Int, TileState>, settings: NoiseSettings,
                       noise: (real, real) -> real): (g: map<Vector2Int, TileState>)
    ensures g.Keys == grid.Keys
    ensures forall k :: k in g ==> g[k] == Reclassify(grid[k], settings, noise)
  {
    ClassifySome(grid, grid.Keys, settings, noise)
  }

  /**
   * The grid after classifying its tiles one at a time in the given order,
   * as the foreach of HexagonalMap.cs:87 does for the order it enumerates.
   * No key is added or removed, and a tile the order never visits is left
   * as it was.
   */
  function ClassifyInOrder(grid: map<Vector2Int, TileState>, order: seq<Vector2Int>,
                           settings: NoiseSettings, noise: (real, real) -> real): (g: map<Vector2Int, TileState>)
    ensures g.Keys == grid.Keys
    ensures forall k :: k in grid && k !in order ==> g[k] == grid[k]
    decreases |order|
  {
    if order == [] then grid
    else
      var k := order[0];
      var next := if k in grid then grid[k := Reclassify(grid[k], settings, noise)] else grid;
      ClassifyInOrder(next, order[1..], settings, noise)
  }

  /** Classifying an already classified tile changes nothing. */
  lemma ReclassifyIdempotent(tile: TileState, settings: NoiseSettings, noise: (real, real) -> real)
    ensures Reclassify(Reclassify(tile, settings, noise), settings, noise) == Reclassify(tile, settings, noise)
  {
  }

  /**
   * Visiting the tiles one at a time, in any order and even with repeats,
   * gives the grid in which exactly the visited tiles are classified: the
   * result depends on which tiles were visited, not on the order.
   */
  lemma {:induction false} ClassifyInOrderIsSetwise(grid: map<Vector2Int, TileState>, order: seq<Vector2Int>,
                                                    settings: NoiseSettings, noise: (real, real) -> real)
    ensures ClassifyInOrder(grid, order, settings, noise) == ClassifySome(grid, (set k | k in order), settings, noise)
    decreases |order|
  {
    if order == [] {
      assert ClassifySome(grid, {}, settings, noise) == grid;
    } else {
      var k := order[0];
      var next := if k in grid then grid[k := Reclassify(grid[k], settings, noise)] else grid;
      var rest := set j | j in order[1..];
      ClassifyInOrderIsSetwise(next, order[1..], settings, noise);
      assert (set j | j in order) == {k} + rest by {
        forall j | j in order ensures j in {k} + rest {
          var i :| 0 <= i < |order| && order[i] == j;
          if i > 0 { assert order[1..][i - 1] == j; }
        }
      }
      forall j | j in grid
        ensures ClassifySome(next, rest, settings, noise)[j] == ClassifySome(grid, {k} + rest, settings, noise)[j]
      {
        if j == k {
          ReclassifyIdempotent(grid[k], settings, noise);
        }
      }
    }
  }

  /** Two visiting orders over the same tiles give the same grid. */
  lemma ClassifyOrderIrrelevant(grid: map<Vector2Int, TileState>, order1: seq<Vector2Int>, order2: seq<Vector2Int>,
                                settings: NoiseSettings, noise: (real, real) -> real)
    requires forall k :: k in order1 <==> k in order2
    ensures ClassifyInOrder(grid, order1, settings, noise) == ClassifyInOrder(grid, order2, settings, noise)
  {
    ClassifyInOrderIsSetwise(grid, order1, settings, noise);
    ClassifyInOrderIsSetwise(grid, order2, settings, noise);
    assert (set k | k in order1) == (set k | k in order2);
  }

  /** Any visiting order that reaches every tile gives the fully classified grid. */
  lemma ClassifyEveryOrder(grid: map<Vector2Int, TileState>, order: seq<Vector2Int>,
                           settings: NoiseSettings, noise: (real, real) -> real)
    requires forall k :: k in grid ==> k in order
    ensures ClassifyInOrder(grid, order, settings, noise) == ClassifyAll(grid, settings, noise)
  {
    ClassifyInOrderIsSetwise(grid, order, settings, noise);
  }

  /** Classifying a classified grid again with the same inputs changes nothing. */
  lemma ClassifyIdempotent(grid: map<Vector2Int, TileState>, settings: NoiseSettings, noise: (real, real) -> real)
    ensures ClassifyAll(ClassifyAll(grid, settings, noise), settings, noise) == ClassifyAll(grid, settings, noise)
  {
    var once := ClassifyAll(grid, settings, noise);
    forall k | k in grid ensures ClassifyAll(once, settings, noise)[k] == once[k] {
      ReclassifyIdempotent(grid[k], settings, noise);
    }
  }

  /**
   * The classified grid does not depend on the categories the tiles held
   * before: two grids with the same keys and positions classify alike.
   */
  lemma ClassifyIgnoresPriorType(grid1: map<Vector2Int, TileState>, grid2: map<Vector2Int, TileState>,
                                 settings: NoiseSettings, noise: (real, real) -> real)
    requires grid1.Keys == grid2.Keys
    requires forall k :: k in grid1 ==> && grid1[k].GridPosition == grid2[k].GridPosition
                                        && grid1[k].WorldPosition == grid2[k].WorldPosition
    ensures ClassifyAll(grid1, settings, noise) == ClassifyAll(grid2, settings, noise)
  {
    var a := ClassifyAll(grid1, settings, noise);
    var b := ClassifyAll(grid2, settings, noise);
    forall k | k in a ensures a[k] == b[k] {
    }
  }
}
