/**
  * The tile-map mesh builder: an append-only accumulator of unit quads, one per
  * tile, textured from a square atlas indexed by tile type.
  */
module Meshing {
  import opened Dimensions

  /** A vertex position or a normal. Positions are whole numbers because every
      tile offset a chunk passes is a whole multiple of TILE_SIZE. */
  datatype Vec3 = Vec3(x: int, y: int, z: int)

  /** A texture coordinate, each component counted in atlas cells: the float the
      renderer receives is the component divided by TEXTURE_DIMENSION, which is
      exact since every such value is a whole number of eighths. */
  datatype Uv = Uv(u: int, v: int)

  /** The arguments of one add_tile call. */
  datatype Face = Face(offsetX: int, offsetY: int, tileType: nat)

  /** The buffers handed to the renderer by a build. */
  datatype Mesh = Mesh(positions: seq<Vec3>, indices: seq<nat>, normals: seq<Vec3>, uvs: seq<Uv>)

  /** The normal of every vertex: the quads face the viewer along +z. */
  const UP: Vec3 := Vec3(0, 0, 1)

  /** The two triangles of a quad over its corners bl = 0, tl = 1, br = 2, tr = 3. */
  const INDEX_PATTERN: seq<nat> := [1, 0, 2, 1, 2, 3]

  /** Corners of the unit quad at an offset, in the order bl, tl, br, tr. */
  function QuadVertices(offsetX: int, offsetY: int): (r: seq<Vec3>)
    ensures |r| == 4
    ensures forall j :: 0 <= j < 4 ==>
      r[j].z == 0 && offsetX <= r[j].x <= offsetX + TILE_SIZE && offsetY <= r[j].y <= offsetY + TILE_SIZE
    ensures r[0] != r[3] && r[1] != r[2]
  {
    [Vec3(offsetX, offsetY, 0),
     Vec3(offsetX, offsetY + TILE_SIZE, 0),
     Vec3(offsetX + TILE_SIZE, offsetY, 0),
     Vec3(offsetX + TILE_SIZE, offsetY + TILE_SIZE, 0)]
  }

  /** The six indices stored for face number k: the pattern moved past the
      four vertices of each earlier face, so they name only face k's corners. */
  function QuadIndices(k: nat): (r: seq<nat>)
    ensures |r| == 6
    ensures forall j :: 0 <= j < 6 ==> 4 * k <= r[j] < 4 * k + 4
  {
    seq(6, j requires 0 <= j < 6 => INDEX_PATTERN[j] + 4 * k)
  }

  /** Atlas row of a tile type: the floor of the float quotient by the atlas side. */
  function AtlasRow(tileType: nat): (r: int)
    ensures 0 <= r && TEXTURE_DIMENSION * r <= tileType < TEXTURE_DIMENSION * (r + 1)
  {
    (tileType as real / TEXTURE_DIMENSION as real).Floor
  }

  /** Atlas column of a tile type. The source takes the float remainder, which for
      a non-negative whole number is the integer remainder. */
  function AtlasColumn(tileType: nat): (r: int)
    ensures 0 <= r < TEXTURE_DIMENSION
  {
    tileType % TEXTURE_DIMENSION
  }

  /** Texture coordinates of the quad's corners bl, tl, br, tr. The image is read
      top-down, so the bottom corners take the lower edge (row + 1) of the cell. */
  function QuadUvs(tileType: nat): (r: seq<Uv>)
    ensures |r| == 4
    ensures forall j :: 0 <= j < 4 ==>
      AtlasColumn(tileType) <= r[j].u <= AtlasColumn(tileType) + 1 && AtlasRow(tileType) <= r[j].v <= AtlasRow(tileType) + 1
  {
    var row := AtlasRow(tileType);
    var col := AtlasColumn(tileType);
    [Uv(col + 1, row + 1), Uv(col, row), Uv(col, row + 1), Uv(col + 1, row)]
  }

  /** The buffers after adding the given faces, in order, to an empty builder. */
  function MeshOf(faces: seq<Face>): Mesh
  {
    if faces == [] then Mesh([], [], [], [])
    else
      var last := faces[|faces| - 1];
      var m := MeshOf(faces[..|faces| - 1]);
      Mesh(m.positions + QuadVertices(last.offsetX, last.offsetY),
           m.indices + QuadIndices(|faces| - 1),
           m.normals + [UP, UP, UP, UP],
           m.uvs + QuadUvs(last.tileType))
  }

  /** Adding one more face extends each buffer by that face's quad. */
  lemma MeshOfSnoc(faces: seq<Face>, face: Face)
    ensures MeshOf(faces + [face]) ==
      Mesh(MeshOf(faces).positions + QuadVertices(face.offsetX, face.offsetY),
           MeshOf(faces).indices + QuadIndices(|faces|),
           MeshOf(faces).normals + [UP, UP, UP, UP],
           MeshOf(faces).uvs + QuadUvs(face.tileType))
  {
    assert (faces + [face])[..|faces|] == faces;
  }

  /** Buffers that hold the mesh of some faces, each extended by one more
      face's quad, hold the mesh of the longer list. */
  lemma MeshStep(faces: seq<Face>, face: Face, positions: seq<Vec3>, indices: seq<nat>, normals: seq<Vec3>, uvs: seq<Uv>)
    requires Mesh(positions, indices, normals, uvs) == MeshOf(faces)
    ensures Mesh(positions + QuadVertices(face.offsetX, face.offsetY), indices + QuadIndices(|faces|),
                 normals + [UP, UP, UP, UP], uvs + QuadUvs(face.tileType)) == MeshOf(faces + [face])
  {
    MeshOfSnoc(faces, face);
  }

  /** The texture coordinate lies in the atlas, [0, 1] on both axes. */
  predicate InAtlas(uv: Uv)
  {
    0 <= uv.u <= TEXTURE_DIMENSION && 0 <= uv.v <= TEXTURE_DIMENSION
  }

  // ---------------------------------------------------------------------------
  // The atlas cell of a tile type

  /** Row and column locate the tile type in the atlas and give it back. */
  lemma AtlasCellOf(tileType: nat)
    ensures AtlasRow(tileType) == tileType / TEXTURE_DIMENSION
    ensures TEXTURE_DIMENSION * AtlasRow(tileType) + AtlasColumn(tileType) == tileType
  {
    var q := tileType / TEXTURE_DIMENSION;
    var r := tileType % TEXTURE_DIMENSION;
    assert tileType == 8 * q + r && 0 <= r < 8;
    assert tileType as real / 8.0 == q as real + r as real / 8.0;
    assert q as real <= tileType as real / 8.0 < q as real + 1.0;
  }

  /** A tile type with a texture gets texture coordinates inside the atlas. */
  lemma QuadUvsInAtlas(tileType: nat)
    requires tileType < TEXTURES
    ensures forall j :: 0 <= j < 4 ==> InAtlas(QuadUvs(tileType)[j])
  {
    AtlasCellOf(tileType);
  }

  // ---------------------------------------------------------------------------
  // Shape of the accumulated buffers

  /** Four vertices, normals and texture coordinates and six indices per face. */
  lemma {:induction false} MeshSizes(faces: seq<Face>)
    ensures |MeshOf(faces).positions| == 4 * |faces|
    ensures |MeshOf(faces).normals| == 4 * |faces|
    ensures |MeshOf(faces).uvs| == 4 * |faces|
    ensures |MeshOf(faces).indices| == 6 * |faces|
  {
    if faces != [] {
      MeshSizes(faces[..|faces| - 1]);
    }
  }

  /** Index j of face k is the pattern's entry j moved past 4k vertices. */
  lemma {:induction false} IndexAt(faces: seq<Face>, k: nat, j: nat)
    requires k < |faces| && j < 6
    ensures 6 * k + j < |MeshOf(faces).indices|
    ensures MeshOf(faces).indices[6 * k + j] == 4 * k + INDEX_PATTERN[j]
  {
    MeshSizes(faces);
    var n := |faces| - 1;
    MeshSizes(faces[..n]);
    if k < n {
      IndexAt(faces[..n], k, j);
    }
  }

  /** Every stored index names a stored vertex. */
  lemma IndicesBelowVertexCount(faces: seq<Face>)
    ensures forall i :: 0 <= i < |MeshOf(faces).indices| ==> MeshOf(faces).indices[i] < |MeshOf(faces).positions|
  {
    MeshSizes(faces);
    forall i | 0 <= i < |MeshOf(faces).indices|
      ensures MeshOf(faces).indices[i] < 4 * |faces|
    {
      IndexAt(faces, i / 6, i % 6);
    }
  }

  /** The vertices of face k are the corners of the quad at its offset. */
  lemma {:induction false} VertexAt(faces: seq<Face>, k: nat, j: nat)
    requires k < |faces| && j < 4
    ensures 4 * k + j < |MeshOf(faces).positions|
    ensures MeshOf(faces).positions[4 * k + j] == QuadVertices(faces[k].offsetX, faces[k].offsetY)[j]
  {
    MeshSizes(faces);
    var n := |faces| - 1;
    MeshSizes(faces[..n]);
    if k < n {
      VertexAt(faces[..n], k, j);
    }
  }

  /** The texture coordinates of face k are those of its tile type. */
  lemma {:induction false} UvAt(faces: seq<Face>, k: nat, j: nat)
    requires k < |faces| && j < 4
    ensures 4 * k + j < |MeshOf(faces).uvs|
    ensures MeshOf(faces).uvs[4 * k + j] == QuadUvs(faces[k].tileType)[j]
  {
    MeshSizes(faces);
    var n := |faces| - 1;
    MeshSizes(faces[..n]);
    if k < n {
      UvAt(faces[..n], k, j);
    }
  }

  /** Every normal points along +z. */
  lemma {:induction false} NormalsUp(faces: seq<Face>)
    ensures forall i :: 0 <= i < |MeshOf(faces).normals| ==> MeshOf(faces).normals[i] == UP
  {
    if faces != [] {
      NormalsUp(faces[..|faces| - 1]);
    }
  }

  /** When every tile type has a texture, every texture coordinate is inside the atlas. */
  lemma {:induction false} UvsInAtlas(faces: seq<Face>)
    requires forall k :: 0 <= k < |faces| ==> faces[k].tileType < TEXTURES
    ensures forall i :: 0 <= i < |MeshOf(faces).uvs| ==> InAtlas(MeshOf(faces).uvs[i])
  {
    if faces != [] {
      var n := |faces| - 1;
      UvsInAtlas(faces[..n]);
      QuadUvsInAtlas(faces[n].tileType);
    }
  }

  /** Adding faces only appends: every buffer of the earlier mesh is a prefix
      of the same buffer afterwards. */
  lemma {:induction false} AppendOnly(faces: seq<Face>, more: seq<Face>)
    ensures MeshOf(faces).positions <= MeshOf(faces + more).positions
    ensures MeshOf(faces).indices <= MeshOf(faces + more).indices
    ensures MeshOf(faces).normals <= MeshOf(faces + more).normals
    ensures MeshOf(faces).uvs <= MeshOf(faces + more).uvs
  {
    if more == [] {
      assert faces + more == faces;
    } else {
      var n := |more| - 1;
      AppendOnly(faces, more[..n]);
      var all := faces + more;
      assert all[..|all| - 1] == faces + more[..n];
    }
  }

  /** A complete mesh is well formed: the sizes fit the face count and every
      index names a vertex. */
  lemma WellFormed(faces: seq<Face>)
    ensures var m := MeshOf(faces);
      |m.positions| == |m.normals| == |m.uvs| == 4 * |faces| &&
      |m.indices| == 6 * |faces| &&
      forall i :: 0 <= i < |m.indices| ==> m.indices[i] < |m.positions|
  {
    MeshSizes(faces);
    IndicesBelowVertexCount(faces);
  }

  /**
    * The builder. Its buffers are always those of MeshOf(faces), where faces
    * lists the add_tile calls since it was made or last cleared.
    */
  class ChunkTileMapBuilder {
    var vertices: seq<Vec3>
    var triangles: seq<nat>
    var normals: seq<Vec3>
    var uvs: seq<Uv>
    var faceCount: nat

    /** The add_tile calls since the last clear, oldest first. */
    ghost var faces: seq<Face>

    ghost predicate Valid()
      reads this
    {
      faceCount == |faces| &&
      Mesh(vertices, triangles, normals, uvs) == MeshOf(faces)
    }

    /** The default builder: all buffers empty. */
    constructor ()
      ensures Valid() && faces == []
      ensures vertices == [] && triangles == [] && normals == [] && uvs == [] && faceCount == 0
    {
      vertices, triangles, normals, uvs, faceCount := [], [], [], [], 0;
      faces := [];
    }

    /** Empties every buffer, whatever was there. */
    method Clear()
      modifies this
      ensures Valid() && faces == []
      ensures vertices == [] && triangles == [] && normals == [] && uvs == [] && faceCount == 0
    {
      vertices := [];
      triangles := [];
      normals := [];
      uvs := [];
      faceCount := 0;
      faces := [];
    }

    /** Appends one quad at the offset, textured by the tile type's atlas cell. */
    method AddTile(offsetX: int, offsetY: int, tileType: nat)
      requires Valid()
      modifies this
      ensures Valid()
      ensures faces == old(faces) + [Face(offsetX, offsetY, tileType)]
      ensures vertices == old(vertices) + QuadVertices(offsetX, offsetY)
      ensures triangles == old(triangles) + QuadIndices(old(faceCount))
      ensures normals == old(normals) + [UP, UP, UP, UP]
      ensures uvs == old(uvs) + QuadUvs(tileType)
      ensures faceCount == old(faceCount) + 1
    {
      ghost var face := Face(offsetX, offsetY, tileType);

      var bl := Vec3(offsetX, offsetY, 0);
      var tl := Vec3(offsetX, offsetY + TILE_SIZE, 0);
      var br := Vec3(offsetX + TILE_SIZE, offsetY, 0);
      var tr := Vec3(offsetX + TILE_SIZE, offsetY + TILE_SIZE, 0);
      vertices := vertices + [bl, tl, br, tr];

      var triArr := new nat[] [1, 0, 2, 1, 2, 3];
      ShiftIndices(triArr, faceCount);
      triangles := triangles + triArr[..];

      PushNormals();

      // bl, tl, br, tr; one atlas cell is one unit
      var row := AtlasRow(tileType);
      var col := AtlasColumn(tileType);
      uvs := uvs + [Uv(col + 1, row + 1), Uv(col, row), Uv(col, row + 1), Uv(col + 1, row)];

      assert vertices == old(vertices) + QuadVertices(offsetX, offsetY);
      assert uvs == old(uvs) + QuadUvs(tileType);
      MeshStep(faces, face, old(vertices), old(triangles), old(normals), old(uvs));
      faces := faces + [face];
      faceCount := faceCount + 1;
    }

    /** The normals loop of AddTile: four more normals, all facing the camera. */
    method PushNormals()
      modifies this
      ensures normals == old(normals) + [UP, UP, UP, UP]
      ensures vertices == old(vertices) && triangles == old(triangles) && uvs == old(uvs)
      ensures faces == old(faces) && faceCount == old(faceCount)
    {
      for n := 0 to 4
        invariant normals == old(normals) + seq(n, _ => UP)
        invariant vertices == old(vertices) && triangles == old(triangles) && uvs == old(uvs)
        invariant faces == old(faces) && faceCount == old(faceCount)
      {
        normals := normals + [UP];
      }
      assert seq(4, _ => UP) == [UP, UP, UP, UP];
    }

    /** Moves each entry of the index pattern, in place, past the four
        vertices of each of the given number of earlier faces. */
    static method ShiftIndices(triArr: array<nat>, faceCount: nat)
      requires triArr[..] == INDEX_PATTERN
      modifies triArr
      ensures triArr[..] == QuadIndices(faceCount)
    {
      for i := 0 to 6
        invariant forall j :: 0 <= j < i ==> triArr[j] == INDEX_PATTERN[j] + 4 * faceCount
        invariant forall j :: i <= j < 6 ==> triArr[j] == INDEX_PATTERN[j]
      {
        triArr[i] := triArr[i] + 4 * faceCount;
      }
    }

    /** A copy of the current buffers; the builder is left as it was. */
    method Build() returns (mesh: Mesh)
      requires Valid()
      ensures mesh == MeshOf(faces)
      ensures mesh.positions == vertices && mesh.indices == triangles
      ensures mesh.normals == normals && mesh.uvs == uvs
    {
      mesh := Mesh(vertices, triangles, normals, uvs);
    }
  }
}
