/** Sizes shared by the chunk grid, the mesh builder and the texture atlas. */
module Dimensions {
  /** Tiles along one side of a chunk. */
  const CHUNK_SIZE: nat := 16

  /** World-space side of one tile (1.0 in the source, a whole number). */
  const TILE_SIZE: nat := 1

  /** World-space side of one chunk. */
  const CHUNK_SIDE_SIZE: nat := TILE_SIZE * CHUNK_SIZE

  /** Cells along one side of the square texture atlas. */
  const TEXTURE_DIMENSION: nat := 8

  /** Number of cells in the texture atlas, the tile types that have a texture. */
  const TEXTURES: nat := 64
}
