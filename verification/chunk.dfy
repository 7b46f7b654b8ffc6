/**
  * A chunk: a CHUNK_SIZE x CHUNK_SIZE grid of tile types at a chunk coordinate,
  * together with the builder that turns the grid into a mesh.
  */
module Chunks {
  import opened Dimensions
  import opened Meshing
  import opened Seqs

  /** A chunk coordinate: whole chunk indices, not world units. */
  datatype Coord = Coord(x: int, y: int)

  /** The tile type chosen for cell (x, y) of the chunk being made. Noise
      sampling and the biome and tile draws are folded into this function. */
  type TileSelector = (nat, nat) -> nat

  /** A grid of tile types indexed [x][y]. */
  type Grid = seq<seq<nat>>

  predicate IsGrid(g: Grid)
  {
    |g| == CHUNK_SIZE && forall x :: 0 <= x < |g| ==> |g[x]| == CHUNK_SIZE
  }

  /** The grid with cell (x, y) holding b and every other cell as before. */
  function WithCell(g: Grid, x: nat, y: nat, b: nat): (r: Grid)
    requires IsGrid(g) && x < CHUNK_SIZE && y < CHUNK_SIZE
    ensures IsGrid(r)
    ensures forall i, j :: 0 <= i < CHUNK_SIZE && 0 <= j < CHUNK_SIZE ==>
      r[i][j] == if i == x && j == y then b else g[i][j]
  {
    var row: seq<nat> := g[x][y := b];
    g[x := row]
  }

  /** The faces generate_mesh adds, x outer and y inner: face 16x + y is the
      tile of cell (x, y) at offset (x, y) times TILE_SIZE. */
  function GridFaces(g: Grid): (r: seq<Face>)
    requires IsGrid(g)
    ensures |r| == CHUNK_SIZE * CHUNK_SIZE
    ensures forall k :: 0 <= k < |r| ==>
      0 <= r[k].offsetX < CHUNK_SIDE_SIZE && 0 <= r[k].offsetY < CHUNK_SIDE_SIZE
  {
    seq(CHUNK_SIZE * CHUNK_SIZE, k requires 0 <= k < CHUNK_SIZE * CHUNK_SIZE =>
      Face((k / CHUNK_SIZE) * TILE_SIZE, (k % CHUNK_SIZE) * TILE_SIZE, g[k / CHUNK_SIZE][k % CHUNK_SIZE]))
  }

  /** Face number 16x + y of a grid is cell (x, y). */
  lemma GridFaceAt(g: Grid, x: nat, y: nat)
    requires IsGrid(g) && x < CHUNK_SIZE && y < CHUNK_SIZE
    ensures CHUNK_SIZE * x + y < |GridFaces(g)|
    ensures GridFaces(g)[CHUNK_SIZE * x + y] == Face(x * TILE_SIZE, y * TILE_SIZE, g[x][y])
  {
    var k := CHUNK_SIZE * x + y;
    assert k / CHUNK_SIZE == x && k % CHUNK_SIZE == y;
  }

  /** Adding cell (x, y) extends the faces of the cells before it in column x. */
  lemma GridFacesStep(g: Grid, x: nat, y: nat)
    requires IsGrid(g) && x < CHUNK_SIZE && y < CHUNK_SIZE
    ensures CHUNK_SIZE * x + y < |GridFaces(g)|
    ensures GridFaces(g)[CHUNK_SIZE * x..CHUNK_SIZE * x + y + 1]
         == GridFaces(g)[CHUNK_SIZE * x..CHUNK_SIZE * x + y] + [Face(x * TILE_SIZE, y * TILE_SIZE, g[x][y])]
  {
    GridFaceAt(g, x, y);
    var faces, k := GridFaces(g), CHUNK_SIZE * x + y;
    assert faces[CHUNK_SIZE * x..k + 1] == faces[CHUNK_SIZE * x..k] + [faces[k]];
  }

  /** The cells up to column x + 1 are those up to column x followed by column x. */
  lemma GridColumnsStep(g: Grid, x: nat)
    requires IsGrid(g) && x < CHUNK_SIZE
    ensures CHUNK_SIZE * (x + 1) <= |GridFaces(g)|
    ensures GridFaces(g)[..CHUNK_SIZE * (x + 1)]
         == GridFaces(g)[..CHUNK_SIZE * x] + GridFaces(g)[CHUNK_SIZE * x..CHUNK_SIZE * (x + 1)]
  {
    var faces := GridFaces(g);
    assert faces[..CHUNK_SIZE * (x + 1)] == faces[..CHUNK_SIZE * x] + faces[CHUNK_SIZE * x..CHUNK_SIZE * (x + 1)];
  }

  /** Meshing a grid after earlier faces adds 1024 vertices, normals and texture
      coordinates and 1536 indices, whatever the builder already held. */
  lemma GridMeshSizes(prior: seq<Face>, g: Grid)
    requires IsGrid(g)
    ensures var before, after := MeshOf(prior), MeshOf(prior + GridFaces(g));
      |after.positions| == |before.positions| + 1024 &&
      |after.normals| == |before.normals| + 1024 &&
      |after.uvs| == |before.uvs| + 1024 &&
      |after.indices| == |before.indices| + 1536
  {
    MeshSizes(prior);
    MeshSizes(prior + GridFaces(g));
  }

  /** In the mesh after a grid was added to earlier faces, face |prior| + 16x + y
      has the corners of the quad at (x, y) and the texture of g[x][y]. */
  lemma GridMeshAt(prior: seq<Face>, g: Grid, x: nat, y: nat, j: nat)
    requires IsGrid(g) && x < CHUNK_SIZE && y < CHUNK_SIZE && j < 4
    ensures var m, k := MeshOf(prior + GridFaces(g)), |prior| + CHUNK_SIZE * x + y;
      4 * k + j < |m.positions| && 4 * k + j < |m.uvs| &&
      m.positions[4 * k + j] == QuadVertices(x * TILE_SIZE, y * TILE_SIZE)[j] &&
      m.uvs[4 * k + j] == QuadUvs(g[x][y])[j]
  {
    var faces := prior + GridFaces(g);
    var k := |prior| + CHUNK_SIZE * x + y;
    GridFaceAt(g, x, y);
    assert faces[k] == GridFaces(g)[CHUNK_SIZE * x + y];
    VertexAt(faces, k, j);
    UvAt(faces, k, j);
  }

  /** A freshly cleared builder that meshes a grid holds 1024 vertices and 1536
      indices, each below 1024. */
  lemma FreshGridMesh(g: Grid)
    requires IsGrid(g)
    ensures var m := MeshOf(GridFaces(g));
      |m.positions| == 1024 && |m.indices| == 1536 &&
      forall i :: 0 <= i < |m.indices| ==> m.indices[i] < 1024
  {
    WellFormed(GridFaces(g));
  }

  /** A grid of textured tile types meshes to texture coordinates inside the atlas. */
  lemma GridUvsInAtlas(g: Grid)
    requires IsGrid(g)
    requires forall x, y :: 0 <= x < CHUNK_SIZE && 0 <= y < CHUNK_SIZE ==> g[x][y] < TEXTURES
    ensures forall i :: 0 <= i < |MeshOf(GridFaces(g)).uvs| ==> InAtlas(MeshOf(GridFaces(g)).uvs[i])
  {
    var faces := GridFaces(g);
    forall k | 0 <= k < |faces|
      ensures faces[k].tileType < TEXTURES
    {
      GridFaceAt(g, k / CHUNK_SIZE, k % CHUNK_SIZE);
    }
    UvsInAtlas(faces);
  }

  class Chunk {
    /** Tile types, indexed [x, y]. */
    const blocks: array2<nat>
    const coordinate: Coord
    /** The chunk's own builder; it is cleared and refilled, never replaced. */
    const builder: ChunkTileMapBuilder

    ghost predicate Valid()
      reads blocks, builder
    {
      blocks.Length0 == CHUNK_SIZE && blocks.Length1 == CHUNK_SIZE && builder.Valid()
    }

    /** The tile types as a value. */
    ghost function Blocks(): (g: Grid)
      requires blocks.Length0 == CHUNK_SIZE && blocks.Length1 == CHUNK_SIZE
      reads blocks
      ensures IsGrid(g)
    {
      seq(CHUNK_SIZE, x requires 0 <= x < CHUNK_SIZE reads blocks =>
        seq(CHUNK_SIZE, y requires 0 <= y < CHUNK_SIZE reads blocks => blocks[x, y]))
    }

    /** A chunk at the coordinate whose every cell holds the selector's tile type,
        with an empty builder. */
    constructor (coordinate: Coord, select: TileSelector)
      ensures Valid() && fresh(blocks) && fresh(builder)
      ensures this.coordinate == coordinate
      ensures forall x, y :: 0 <= x < CHUNK_SIZE && 0 <= y < CHUNK_SIZE ==> blocks[x, y] == select(x, y)
      ensures builder.faces == []
    {
      var grid := new nat[CHUNK_SIZE, CHUNK_SIZE];
      for x := 0 to CHUNK_SIZE
        invariant forall i, j :: 0 <= i < x && 0 <= j < CHUNK_SIZE ==> grid[i, j] == select(i, j)
      {
        for y := 0 to CHUNK_SIZE
          invariant forall i, j :: 0 <= i < x && 0 <= j < CHUNK_SIZE ==> grid[i, j] == select(i, j)
          invariant forall j :: 0 <= j < y ==> grid[x, j] == select(x, j)
        {
          grid[x, y] := select(x, y);
        }
      }
      blocks := grid;
      this.coordinate := coordinate;
      builder := new ChunkTileMapBuilder();
    }

    /** Overwrites the tile type of one cell. */
    method SetBlock(x: nat, y: nat, block: nat)
      requires Valid()
      requires x < CHUNK_SIZE && y < CHUNK_SIZE
      modifies blocks
      ensures Valid()
      ensures Blocks() == WithCell(old(Blocks()), x, y, block)
    {
      ghost var before := Blocks();
      blocks[x, y] := block;
      ghost var after := WithCell(before, x, y, block);
      forall i | 0 <= i < CHUNK_SIZE
        ensures Blocks()[i] == after[i]
      {
        assert forall j :: 0 <= j < CHUNK_SIZE ==> Blocks()[i][j] == after[i][j];
      }
    }

    /** Adds every cell, x outer and y inner, to the builder (without clearing it)
        and returns the builder's mesh. */
    method GenerateMesh() returns (mesh: Mesh)
      requires Valid()
      modifies builder
      ensures Valid()
      ensures builder.faces == old(builder.faces) + GridFaces(Blocks())
      ensures mesh == MeshOf(builder.faces)
    {
      ghost var g := Blocks();
      for x := 0 to CHUNK_SIZE
        invariant Valid()
        invariant builder.faces == old(builder.faces) + GridFaces(g)[..CHUNK_SIZE * x]
      {
        GridColumnsStep(g, x);
        AddColumn(x);
        AppendAssoc(old(builder.faces), GridFaces(g)[..CHUNK_SIZE * x], GridFaces(g)[CHUNK_SIZE * x..CHUNK_SIZE * (x + 1)]);
      }
      SliceAll(GridFaces(g));
      mesh := builder.Build();
    }

    /** The inner loop of GenerateMesh: adds the cells of column x, y ascending. */
    method AddColumn(x: nat)
      requires Valid() && x < CHUNK_SIZE
      modifies builder
      ensures Valid()
      ensures builder.faces == old(builder.faces) + GridFaces(Blocks())[CHUNK_SIZE * x..CHUNK_SIZE * (x + 1)]
    {
      ghost var g := Blocks();
      for y := 0 to CHUNK_SIZE
        invariant builder.Valid()
        invariant builder.faces == old(builder.faces) + GridFaces(g)[CHUNK_SIZE * x..CHUNK_SIZE * x + y]
      {
        GridFacesStep(g, x, y);
        builder.AddTile(x * TILE_SIZE, y * TILE_SIZE, blocks[x, y]);
        AppendAssoc(old(builder.faces), GridFaces(g)[CHUNK_SIZE * x..CHUNK_SIZE * x + y], [Face(x * TILE_SIZE, y * TILE_SIZE, g[x][y])]);
      }
    }

    /** Empties the builder; the tile types are untouched. */
    method ClearBuilder()
      requires Valid()
      modifies builder
      ensures Valid() && builder.faces == []
      ensures builder.vertices == [] && builder.triangles == [] && builder.normals == []
      ensures builder.uvs == [] && builder.faceCount == 0
    {
      builder.Clear();
    }
  }
}
