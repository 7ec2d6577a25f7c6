# Hexagonal map generation, modelled in Dafny

This project models the map-generation core of the `HexagonalMap` Unity
component (`Assets/Scripts/HexagonalMap.cs`). The component builds a
hexagon-shaped region of axial coordinates `(q, r)`. It stores one tile per
coordinate in a dictionary. Then it gives every tile a terrain category
(`Water`, `Plain` or `Mountain`) by comparing a noise value, sampled at the
tile's world position, against two thresholds.

The model has four modules, one per file:

- `Tiles` (`tiles.dfy`): the value types. These are the terrain enum, Unity's
  `Vector2Int`/`Vector2`/`Vector3`, the value a tile holds at one moment
  (`TileState`), and `GetPrefabByType`.
- `GridBuilder` (`grid_builder.dfy`): the region the two nested loops of
  `GenerateHexGrid` enumerate, stated as sets. It holds the soundness,
  completeness and hexagonal-number count lemmas, and the map the build
  produces (`FreshGrid`).
- `TerrainClassifier` (`terrain_classifier.dfy`): the threshold rule and the
  classification of a whole grid, stated on values. It proves that only the
  category changes, that a tile's category depends on its own world position
  alone, and that the visiting order does not matter.
- `HexagonalMap` (`hexagonal_map.dfy`): the component as a class. It holds
  the inspector fields and the `hexGrid` dictionary as a
  `map<Vector2Int, HexTile>` field. `HexTile` is a class whose `Type` field
  `ApplyPerlinNoise` writes in place. `GenerateHexGrid` keeps the source's
  nested `for` loops. `ApplyPerlinNoise` keeps its loop over the tile objects,
  in an arbitrary order. Each method is proved against the value-level
  functions above. `ghost function Snapshot()` reads the tile objects back
  as a `map<Vector2Int, TileState>`.

Two foreign pieces are parameters of the component's constructor, so they are
deterministic but otherwise arbitrary:

- `hexLayout` is the flat-top formula of `GridToWorldPosition`, which uses
  float `sqrt(3)`. It takes the hex size and a cell.
- `perlinNoise` is `Mathf.PerlinNoise`. Nothing is assumed about its range.

Float values are modelled as `real`; `int` is unbounded.

The code validates neither the radius nor the hex size. A negative radius
gives an empty grid, and the hex size reaches the layout unchecked. The model
adds no error path.

## Model

| member | source | states |
|---|---|---|
| `Tiles.GetPrefabByType` | Assets/Scripts/HexagonalMap.cs:138-147 | total over the enum; Water, Plain and Mountain select the water, plain and mountain prefab respectively |
| `Tiles.PrefabIdentifiesType` | Assets/Scripts/HexagonalMap.cs:138-147 | with three distinct prefabs, two categories get the same prefab exactly when they are the same category |
| `GridBuilder.InHex` | Assets/Scripts/HexagonalMap.cs:50-55 | every cell the guard of lines 54-55 accepts has a non-negative radius and lies inside the `[-R, R]` ranges the loops of lines 50 and 52 scan, so the loops reach it |
| `GridBuilder.RegionMembership` | Assets/Scripts/HexagonalMap.cs:50-55 | a cell is in the built region if and only if `|q|`, `|r|` and `|-q-r|` are all at most the radius (soundness and completeness) |
| `GridBuilder.RegionEmptyBelowZero` | Assets/Scripts/HexagonalMap.cs:50-52 | a negative radius gives an empty region, not an error |
| `GridBuilder.RegionOfRadiusZero` | Assets/Scripts/HexagonalMap.cs:50-55 | radius 0 gives the single cell (0, 0) |
| `GridBuilder.RegionOfRadiusOne` | Assets/Scripts/HexagonalMap.cs:50-55 | radius 1 gives exactly the centre and its six neighbours |
| `GridBuilder.RegionSize` | Assets/Scripts/HexagonalMap.cs:50-67 | the region has exactly `3R² + 3R + 1` cells for `R >= 0` and none for `R < 0` |
| `GridBuilder.RowSize` | Assets/Scripts/HexagonalMap.cs:52-55 | the inner loop keeps `2R + 1 - |q|` cells of row `q` when `|q| <= R`, and none otherwise |
| `GridBuilder.RowsStep` | Assets/Scripts/HexagonalMap.cs:50-55 | the cells kept before row `q + 1` are those kept before row `q` plus row `q`, and the two parts are disjoint |
| `GridBuilder.RowsSize` | Assets/Scripts/HexagonalMap.cs:50-55 | the number of cells kept before row `q` is the sum of the lengths of the earlier rows |
| `GridBuilder.RowsComplete` | Assets/Scripts/HexagonalMap.cs:50-55 | once the outer loop has passed the radius, the kept cells are the whole region |
| `GridBuilder.RowsTotal` | Assets/Scripts/HexagonalMap.cs:50-52 | the row lengths over all `2R + 1` rows sum to `3R² + 3R + 1` |
| `GridBuilder.WorldPosition` | Assets/Scripts/HexagonalMap.cs:73-83 | a world position has `z = 0` and the `(x, y)` the layout gives for the hex size and cell |
| `HexagonalMap.HexagonalMap.GridToWorldPosition` | Assets/Scripts/HexagonalMap.cs:73-83 | the world position of a cell under the component's hex size: `z = 0` and `(x, y)` is the layout of the hex size and cell |
| `GridBuilder.FreshGrid` | Assets/Scripts/HexagonalMap.cs:48-67 | the dictionary the build leaves: its keys are exactly the cells the guard accepts, and each tile is Plain, stored under its own coordinate, at the layout's world position |
| `GridBuilder.FreshGridShape` | Assets/Scripts/HexagonalMap.cs:48-67 | the built grid's keys are exactly the cells satisfying the guard; it has `3R² + 3R + 1` tiles; each tile is Plain, with its key as grid position and the layout's world position |
| `TerrainClassifier.SamplePoint` | Assets/Scripts/HexagonalMap.cs:90-91 | the noise sample point of a tile; with scale 0 every tile samples the origin |
| `TerrainClassifier.SamplePointIgnoresHeight` | Assets/Scripts/HexagonalMap.cs:90-91 | the `z` of a tile's world position plays no part in its sample point |
| `TerrainClassifier.SamplePointOffset` | Assets/Scripts/HexagonalMap.cs:90-91 | moving the noise offset by `d` samples each tile where a tile moved by `d` would be sampled, so the offset scrolls the noise pattern |
| `TerrainClassifier.Classify` | Assets/Scripts/HexagonalMap.cs:95-106 | Water if and only if noise < water threshold; Mountain if and only if noise >= water threshold and noise > mountain threshold; Plain if and only if water threshold <= noise <= mountain threshold |
| `TerrainClassifier.ClassifyMonotone` | Assets/Scripts/HexagonalMap.cs:95-106 | a higher noise value never gives a lower category (Water < Plain < Mountain), even with inverted thresholds |
| `TerrainClassifier.ClassifyAtThresholds` | Assets/Scripts/HexagonalMap.cs:95-106 | noise equal to the water threshold gives Plain, or Mountain if the thresholds are inverted; noise equal to the mountain threshold gives Plain, or Water if inverted |
| `TerrainClassifier.InvertedThresholds` | Assets/Scripts/HexagonalMap.cs:95-106 | when mountain threshold < water threshold, Plain never occurs and Water takes precedence |
| `TerrainClassifier.NoiseTypeAt` | Assets/Scripts/HexagonalMap.cs:90-106 | the category of a tile at a world position: Water if and only if the noise at its sample point is below the water threshold, Mountain if and only if it is at least the water threshold and above the mountain threshold, Plain if and only if it lies between the two inclusive |
| `TerrainClassifier.Reclassify` | Assets/Scripts/HexagonalMap.cs:87-107 | classifying a tile keeps its grid and world position; its new category is the rule applied to the noise at its offset and scaled world position, whatever its old category |
| `TerrainClassifier.ReclassifyIdempotent` | Assets/Scripts/HexagonalMap.cs:87-107 | classifying a tile twice gives the same tile as classifying it once |
| `TerrainClassifier.ClassifyAll` | Assets/Scripts/HexagonalMap.cs:87-107 | classifying the grid keeps its key set, and every tile becomes its own reclassification |
| `TerrainClassifier.ClassifyInOrder` | Assets/Scripts/HexagonalMap.cs:87-107 | the foreach run for a given visiting order: no key is added or removed, and a tile the order never visits keeps its value |
| `TerrainClassifier.ClassifyInOrderIsSetwise` | Assets/Scripts/HexagonalMap.cs:87-107 | classifying tiles one at a time in any order, repeats allowed, gives the grid in which exactly the visited tiles are classified |
| `TerrainClassifier.ClassifyOrderIrrelevant` | Assets/Scripts/HexagonalMap.cs:87-107 | two visiting orders over the same tiles give the same grid |
| `TerrainClassifier.ClassifyEveryOrder` | Assets/Scripts/HexagonalMap.cs:87-107 | any visiting order that reaches every tile gives the fully classified grid |
| `TerrainClassifier.ClassifyIdempotent` | Assets/Scripts/HexagonalMap.cs:87-107 | classifying an already classified grid again with the same inputs changes nothing (determinism) |
| `TerrainClassifier.ClassifyIgnoresPriorType` | Assets/Scripts/HexagonalMap.cs:87-107 | two grids with the same keys and positions classify to the same grid, whatever categories they held before |
| `HexagonalMap.HexTile.constructor` | Assets/Scripts/HexagonalMap.cs:60-65 | a new tile holds the given grid position, world position and category |
| `HexagonalMap.HexagonalMap.TilesDistinct` | Assets/Scripts/HexagonalMap.cs:57-67 | in a grid where every tile is stored under its own coordinate, distinct coordinates hold distinct tile objects, so an in-place write of one tile's Type changes no other entry |
| `HexagonalMap.HexagonalMap.constructor` | Assets/Scripts/HexagonalMap.cs:20-35 | the inspector defaults (radius 10, hex size 1, scale 0.1, thresholds 0.3 and 0.7, zero offset) and an empty grid |
| `HexagonalMap.HexagonalMap.GenerateHexGrid` | Assets/Scripts/HexagonalMap.cs:46-71 | the grid is cleared and then holds exactly `FreshGrid` of the current radius, layout and hex size, all in new tile objects; the old contents play no part; `Dictionary.Add` never meets an existing key (asserted at the call) |
| `HexagonalMap.HexagonalMap.ApplyPerlinNoise` | Assets/Scripts/HexagonalMap.cs:85-108 | only the `Type` field of the tile objects may change; the dictionary is unchanged; the grid afterwards is `ClassifyAll` of the grid before, for tiles visited in an arbitrary order |
| `HexagonalMap.HexagonalMap.GenerateMap` | Assets/Scripts/HexagonalMap.cs:39-44 | the grid afterwards is `ClassifyAll(FreshGrid(...))`, a function of the configuration, the layout and the noise alone |

## Left out

- `VisualizeTiles` (lines 110-136) is left out. It destroys and instantiates Unity game objects, keeps the `tileObjects` dictionary and applies a fixed 90° rotation. These are engine calls and presentation. `GenerateMap` is modelled without this step.
- `OnDrawGizmos` and `DrawHexGizmo` (lines 150-175) are left out: they are debug drawing with float trigonometry.
- `Start` and the `[ContextMenu]` attribute (lines 38, 177-180) are left out: they are Unity lifecycle hooks that only call `GenerateMap`.
- `Mathf.PerlinNoise` is a foreign function. It is the constructor parameter `perlinNoise`, and nothing is assumed about its range or smoothness.
- `GridToWorldPosition` keeps its shape: a `Vector3` whose `z` is 0. Its flat-top formula with float `sqrt(3)` is the constructor parameter `hexLayout`. The concrete positions of cells (for example that (1, 0) lies at `(sqrt(3), 0)`) are therefore not stated.
- Float arithmetic is modelled as exact `real` arithmetic. Rounding in the noise sample point `(x + offset) * scale`, and in threshold comparisons near a tie, is not modelled.
- `int` is unbounded. The source computes in 32-bit `int`, and the model does not capture what that does at the extremes of `mapRadius`:
  - For `mapRadius >= 2^30`, the inner loop of row `q = -R` reaches `r = R - 2^31`. There `-q - r` is `2^31`, which wraps to `int.MinValue` at line 54. `Mathf.Abs`, which delegates to `System.Math.Abs`, then throws an `OverflowException` at line 55, so `GenerateHexGrid` stops part-way through its first row. For the same reason the loop counters never reach the wrap-around of `q++` at `int.MaxValue`.
  - From `mapRadius >= 1431655766`, the cells kept before that exception already include some outside the hexagon. For `(-R, -R)`, `s = 2R` wraps to `2R - 2^32`, whose absolute value is at most `R`, so the guard of line 55 keeps it.
  - With `mapRadius == int.MinValue`, `-mapRadius` is `int.MinValue` again, and `Mathf.Abs(q)` throws on the first cell.
- `GetPrefabByType`'s `default` arm is not modelled. In C# it returns the plain prefab for an enum value outside the three declared ones; the Dafny enum has only the three. The prefab fields are passed as a `TilePrefabs` record rather than held by the component, and null prefabs are not modelled.
- The `[Range(0, 1)]` attributes on the thresholds are editor sliders, not checks, so the model leaves the thresholds unconstrained.
- The order in which `foreach` enumerates `hexGrid.Values` is not modelled. The model picks the tiles in an arbitrary order, and `ClassifyEveryOrder` shows that the order does not matter.
