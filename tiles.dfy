/**
 * Value types shared by the map generator: the terrain categories, the
 * Unity vector types the tiles carry, the value a tile holds at one moment,
 * and the choice of prefab per category.
 */
module Tiles {

  /** The three terrain categories (HexagonalMap.cs:4-9). */
  datatype TileType = Water | Plain | Mountain

  /** Unity's Vector2Int: an axial coordinate, x = q and y = r. */
  datatype Vector2Int = Vector2Int(x: int, y: int)

  /** Unity's Vector2 and Vector3, with `float` components read as reals. */
  datatype Vector2 = Vector2(x: real, y: real)
  datatype Vector3 = Vector3(x: real, y: real, z: real)

  /**
   * The three properties of a HexTile object (HexagonalMap.cs:11-16) at one
   * moment: its terrain category, its axial coordinate and its position in
   * world space.
   */
  datatype TileState = TileState(Type: TileType, GridPosition: Vector2Int, WorldPosition: Vector3)

  /** The three prefab fields of the map component (HexagonalMap.cs:31-33). */
  datatype TilePrefabs<G> = TilePrefabs(waterTilePrefab: G, plainTilePrefab: G, mountainTilePrefab: G)

  /** The prefab a tile of the given category is drawn with. */
  function GetPrefabByType<G>(prefabs: TilePrefabs<G>, tileType: TileType): (prefab: G)
    ensures tileType == Water ==> prefab == prefabs.waterTilePrefab
    ensures tileType == Plain ==> prefab == prefabs.plainTilePrefab
    ensures tileType == Mountain ==> prefab == prefabs.mountainTilePrefab
  {
    match tileType
    case Water => prefabs.waterTilePrefab
    case Plain => prefabs.plainTilePrefab
    case Mountain => prefabs.mountainTilePrefab
  }

  /** With three distinct prefabs, the prefab drawn tells the category back. */
  lemma PrefabIdentifiesType<G>(prefabs: TilePrefabs<G>, t1: TileType, t2: TileType)
    requires prefabs.waterTilePrefab != prefabs.plainTilePrefab
    requires prefabs.waterTilePrefab != prefabs.mountainTilePrefab
    requires prefabs.plainTilePrefab != prefabs.mountainTilePrefab
    ensures GetPrefabByType(prefabs, t1) == GetPrefabByType(prefabs, t2) <==> t1 == t2
  {
  }
}
