/** The integer part of chunk meshing in `updateChunkObject`
    (src/terrain.c:102-171): which tiles of a chunk emit a quad, the four
    vertices and six indices each one adds, and the counts that result. */
module ChunkMesh {
  import opened Common
  import opened ChunkMap
  import opened Terrain

  /** CHUNK_DIM * CHUNK_DIM * 4 */
  const CHUNK_VERTEX_COUNT: int := 1024
  /** CHUNK_DIM * CHUNK_DIM * 6 */
  const CHUNK_INDEX_COUNT: int := 1536

  /** A vertex of the chunk mesh: its position in tile units inside the
      chunk (`CHUNK_TILE_DIM` is 1), its height, and the texture of the tile
      its atlas coordinates are computed from. */
  datatype MeshVertex = MeshVertex(x: int, height: real, z: int, texture: TileTexture)

  /** Corner j of tile (x, z) of chunk (cx, cz): `xi = j % 2`, `zi = j / 2`,
      in the order of the `zi`, `xi` loops (src/terrain.c:110-122). */
  function Corner(s: Snapshot, cx: int, cz: int, x: int, z: int, j: int): real
    requires Sound(s)
  {
    HeightOf(s, cx * CHUNK_DIM + x + j % 2, cz * CHUNK_DIM + z + j / 2)
  }

  /** A tile emits a quad only when none of its four corners is `NO_TILE`. */
  predicate Complete(s: Snapshot, cx: int, cz: int, x: int, z: int)
    requires Sound(s)
  {
    forall j :: 0 <= j < 4 ==> Corner(s, cx, cz, x, z, j) != NO_TILE
  }

  /** A complete tile lies in a mapped chunk of the map, so the texture
      lookup `terrain->textures[chunkID]` (src/terrain.c:129-131) reads a
      stored chunk. */
  lemma CompleteMapped(s: Snapshot, cx: int, cz: int, x: int, z: int)
    requires Sound(s) && 0 <= x < CHUNK_DIM && 0 <= z < CHUNK_DIM && Complete(s, cx, cz, x, z)
    ensures 0 <= cx < MAX_MAP_DIM && 0 <= cz < MAX_MAP_DIM
    ensures Locate(cx * CHUNK_DIM + x, cz * CHUNK_DIM + z) == Some(Place(cz * MAX_MAP_DIM + cx, z * CHUNK_DIM + x))
    ensures s.chunkMap[cz * MAX_MAP_DIM + cx] != NO_CHUNK
    ensures TextureOf(s, cx * CHUNK_DIM + x, cz * CHUNK_DIM + z) == Some(s.textures[s.chunkMap[cz * MAX_MAP_DIM + cx]][z * CHUNK_DIM + x])
  {
    assert Corner(s, cx, cz, x, z, 0) != NO_TILE;
    var wx, wz := cx * CHUNK_DIM + x, cz * CHUNK_DIM + z;
    assert Locate(wx, wz).Some?;
    assert wx / CHUNK_DIM == cx && wx % CHUNK_DIM == x;
    assert wz / CHUNK_DIM == cz && wz % CHUNK_DIM == z;
  }

  /** The four vertices of a complete tile (src/terrain.c:136-155). */
  function TileVertices(s: Snapshot, cx: int, cz: int, x: int, z: int, texture: TileTexture): (r: seq<MeshVertex>)
    requires Sound(s)
    ensures |r| == 4
  {
    seq(4, j requires 0 <= j < 4 => MeshVertex(x + j % 2, Corner(s, cx, cz, x, z, j), z + j / 2, texture))
  }

  /** The two triangles of a quad whose vertices start at `off`
      (src/terrain.c:157-163). */
  function QuadIndices(off: int): (r: seq<int>)
    ensures |r| == 6 && forall i :: 0 <= i < 6 ==> off <= r[i] < off + 4
  {
    [off + 0, off + 2, off + 3, off + 3, off + 1, off + 0]
  }

  /** The texture of tile (x, z), read from the chunk's stored textures. */
  function TextureAt(s: Snapshot, cx: int, cz: int, x: int, z: int): TileTexture
    requires Sound(s) && 0 <= x < CHUNK_DIM && 0 <= z < CHUNK_DIM && Complete(s, cx, cz, x, z)
  {
    CompleteMapped(s, cx, cz, x, z);
    TextureOf(s, cx * CHUNK_DIM + x, cz * CHUNK_DIM + z).value
  }

  /** The mesh of the first n tiles, in the order of the `z`, `x` loops
      (tile n is `z = n / CHUNK_DIM`, `x = n % CHUNK_DIM`): vertices,
      indices, and the number of tiles that emitted a quad. */
  datatype Mesh = Mesh(vertices: seq<MeshVertex>, indices: seq<int>, quads: nat)

  function MeshOf(s: Snapshot, cx: int, cz: int, n: nat): Mesh
    requires Sound(s) && n <= CHUNK_TILES
  {
    if n == 0 then Mesh([], [], 0)
    else
      var m := MeshOf(s, cx, cz, n - 1);
      var x, z := (n - 1) % CHUNK_DIM, (n - 1) / CHUNK_DIM;
      if Complete(s, cx, cz, x, z) then
        Mesh(m.vertices + TileVertices(s, cx, cz, x, z, TextureAt(s, cx, cz, x, z)),
             m.indices + QuadIndices(|m.vertices|), m.quads + 1)
      else m
  }

  /** Every emitting tile adds 4 vertices and 6 indices, every index names
      a vertex of the mesh, and the counts fit the buffers
      (`CHUNK_VERTEX_COUNT`, `CHUNK_INDEX_COUNT`). */
  lemma {:induction false} MeshShape(s: Snapshot, cx: int, cz: int, n: nat)
    requires Sound(s) && n <= CHUNK_TILES
    ensures var m := MeshOf(s, cx, cz, n);
      |m.vertices| == 4 * m.quads && |m.indices| == 6 * m.quads && m.quads <= n
    ensures var m := MeshOf(s, cx, cz, n); forall i :: 0 <= i < |m.indices| ==> 0 <= m.indices[i] < |m.vertices|
    ensures |MeshOf(s, cx, cz, n).vertices| <= CHUNK_VERTEX_COUNT && |MeshOf(s, cx, cz, n).indices| <= CHUNK_INDEX_COUNT
  {
    if n > 0 {
      MeshShape(s, cx, cz, n - 1);
    }
  }

  /** The nested corner loops of one tile, which give up at the first
      `NO_TILE` corner (the `goto discard_tile` of src/terrain.c:110-127). */
  method CornerHeights(t: Terrain, cx: int, cz: int, x: int, z: int) returns (heights: Option<seq<real>>)
    requires Sound(t.State())
    ensures heights.Some? <==> Complete(t.State(), cx, cz, x, z)
    ensures heights.Some? ==> |heights.value| == 4
    ensures heights.Some? ==> forall j :: 0 <= j < 4 ==> heights.value[j] == Corner(t.State(), cx, cz, x, z, j)
  {
    ghost var s := t.State();
    var hs := [0.0, 0.0, 0.0, 0.0];
    for zi := 0 to 2
      invariant |hs| == 4
      invariant forall j :: 0 <= j < 2 * zi ==> Corner(s, cx, cz, x, z, j) != NO_TILE && hs[j] == Corner(s, cx, cz, x, z, j)
    {
      for xi := 0 to 2
        invariant |hs| == 4
        invariant forall j :: 0 <= j < 2 * zi + xi ==> Corner(s, cx, cz, x, z, j) != NO_TILE && hs[j] == Corner(s, cx, cz, x, z, j)
      {
        var height := HeightOf(t.State(), cx * CHUNK_DIM + x + xi, cz * CHUNK_DIM + z + zi);
        assert height == Corner(s, cx, cz, x, z, zi * 2 + xi) by {
          assert (zi * 2 + xi) % 2 == xi && (zi * 2 + xi) / 2 == zi;
        }
        if height == NO_TILE {
          return None;
        }
        hs := hs[zi * 2 + xi := height];
      }
    }
    return Some(hs);
  }

  /** The vertex writes of one tile (src/terrain.c:136-155). */
  method WriteTileVertices(t: Terrain, cx: int, cz: int, x: int, z: int, heights: seq<real>, texture: TileTexture,
                           vertexBuffer: array<MeshVertex>, vertexCount: int) returns (count: int)
    requires Sound(t.State()) && |heights| == 4
    requires forall j :: 0 <= j < 4 ==> heights[j] == Corner(t.State(), cx, cz, x, z, j)
    requires 0 <= vertexCount && vertexCount + 4 <= vertexBuffer.Length
    modifies vertexBuffer
    ensures count == vertexCount + 4
    ensures vertexBuffer[..count] == old(vertexBuffer[..vertexCount]) + TileVertices(t.State(), cx, cz, x, z, texture)
  {
    count := vertexCount;
    for zi := 0 to 2
      invariant count == vertexCount + 2 * zi
      invariant vertexBuffer[..vertexCount] == old(vertexBuffer[..vertexCount])
      invariant forall j :: 0 <= j < 2 * zi ==> vertexBuffer[vertexCount + j] == TileVertices(t.State(), cx, cz, x, z, texture)[j]
    {
      for xi := 0 to 2
        invariant count == vertexCount + 2 * zi + xi
        invariant vertexBuffer[..vertexCount] == old(vertexBuffer[..vertexCount])
        invariant forall j :: 0 <= j < 2 * zi + xi ==> vertexBuffer[vertexCount + j] == TileVertices(t.State(), cx, cz, x, z, texture)[j]
      {
        assert (zi * 2 + xi) % 2 == xi && (zi * 2 + xi) / 2 == zi;
        vertexBuffer[count] := MeshVertex(x + xi, heights[zi * 2 + xi], z + zi, texture);
        count := count + 1;
      }
    }
    assert vertexBuffer[..count] == vertexBuffer[..vertexCount] + TileVertices(t.State(), cx, cz, x, z, texture);
  }

  /** The index writes of one tile (src/terrain.c:157-163). */
  method WriteQuadIndices(indexBuffer: array<int>, indexCount: int, indexOffset: int) returns (count: int)
    requires 0 <= indexCount && indexCount + 6 <= indexBuffer.Length
    modifies indexBuffer
    ensures count == indexCount + 6
    ensures indexBuffer[..count] == old(indexBuffer[..indexCount]) + QuadIndices(indexOffset)
  {
    count := indexCount;
    indexBuffer[count] := indexOffset + 0;
    count := count + 1;
    indexBuffer[count] := indexOffset + 2;
    count := count + 1;
    indexBuffer[count] := indexOffset + 3;
    count := count + 1;
    indexBuffer[count] := indexOffset + 3;
    count := count + 1;
    indexBuffer[count] := indexOffset + 1;
    count := count + 1;
    indexBuffer[count] := indexOffset + 0;
    count := count + 1;
    assert indexBuffer[..count] == indexBuffer[..indexCount] + QuadIndices(indexOffset);
  }

  lemma TileIndex(x: int, z: int)
    requires 0 <= x < CHUNK_DIM && 0 <= z
    ensures (z * CHUNK_DIM + x) % CHUNK_DIM == x && (z * CHUNK_DIM + x) / CHUNK_DIM == z
  {
  }

  /** One tile more: the mesh grows by the tile's quad when it is complete. */
  lemma MeshStep(s: Snapshot, cx: int, cz: int, x: int, z: int, before: Mesh, vertices: seq<MeshVertex>, indices: seq<int>)
    requires Sound(s) && 0 <= x < CHUNK_DIM && 0 <= z < CHUNK_DIM && before == MeshOf(s, cx, cz, z * CHUNK_DIM + x)
    requires Complete(s, cx, cz, x, z)
    requires vertices == before.vertices + TileVertices(s, cx, cz, x, z, TextureAt(s, cx, cz, x, z))
    requires indices == before.indices + QuadIndices(|before.vertices|)
    ensures vertices == MeshOf(s, cx, cz, z * CHUNK_DIM + x + 1).vertices
    ensures indices == MeshOf(s, cx, cz, z * CHUNK_DIM + x + 1).indices
  {
    TileIndex(x, z);
  }

  /** A tile with a missing corner adds nothing. */
  lemma MeshSkip(s: Snapshot, cx: int, cz: int, x: int, z: int)
    requires Sound(s) && 0 <= x < CHUNK_DIM && 0 <= z < CHUNK_DIM && !Complete(s, cx, cz, x, z)
    ensures MeshOf(s, cx, cz, z * CHUNK_DIM + x + 1) == MeshOf(s, cx, cz, z * CHUNK_DIM + x)
  {
    TileIndex(x, z);
  }

  /** One turn of the `x` loop (src/terrain.c:104-165): tile (x, z) adds
      its quad when all its corners are present. */
  method EmitTile(t: Terrain, cx: int, cz: int, x: int, z: int, vertexBuffer: array<MeshVertex>, indexBuffer: array<int>,
                  vertexCount: int, indexCount: int) returns (vertexCount': int, indexCount': int)
    requires Sound(t.State()) && 0 <= x < CHUNK_DIM && 0 <= z < CHUNK_DIM
    requires vertexBuffer.Length == CHUNK_VERTEX_COUNT && indexBuffer.Length == CHUNK_INDEX_COUNT
    requires 0 <= vertexCount <= CHUNK_VERTEX_COUNT && 0 <= indexCount <= CHUNK_INDEX_COUNT
    requires vertexBuffer[..vertexCount] == MeshOf(t.State(), cx, cz, z * CHUNK_DIM + x).vertices
    requires indexBuffer[..indexCount] == MeshOf(t.State(), cx, cz, z * CHUNK_DIM + x).indices
    modifies vertexBuffer, indexBuffer
    ensures 0 <= vertexCount' <= CHUNK_VERTEX_COUNT && 0 <= indexCount' <= CHUNK_INDEX_COUNT
    ensures vertexBuffer[..vertexCount'] == MeshOf(t.State(), cx, cz, z * CHUNK_DIM + x + 1).vertices
    ensures indexBuffer[..indexCount'] == MeshOf(t.State(), cx, cz, z * CHUNK_DIM + x + 1).indices
  {
    ghost var s := t.State();
    MeshShape(s, cx, cz, z * CHUNK_DIM + x + 1);
    var heights := CornerHeights(t, cx, cz, x, z);
    if heights.None? {
      MeshSkip(s, cx, cz, x, z);
      return vertexCount, indexCount;
    }
    ghost var before := MeshOf(s, cx, cz, z * CHUNK_DIM + x);
    MeshShape(s, cx, cz, z * CHUNK_DIM + x);
    CompleteMapped(s, cx, cz, x, z);
    var chunkID := t.chunkMap[cz * MAX_MAP_DIM + cx];
    var texture := t.textures[chunkID][z * CHUNK_DIM + x];
    assert texture == TextureAt(s, cx, cz, x, z);
    var indexOffset := vertexCount;
    vertexCount' := WriteTileVertices(t, cx, cz, x, z, heights.value, texture, vertexBuffer, vertexCount);
    indexCount' := WriteQuadIndices(indexBuffer, indexCount, indexOffset);
    MeshStep(s, cx, cz, x, z, before, vertexBuffer[..vertexCount'], indexBuffer[..indexCount']);
  }

  /** The vertex and index loops of `updateChunkObject` (src/terrain.c:102-171):
      the buffers hold the mesh of all tiles of chunk (cx, cz), and the
      counts it stores are its lengths. */
  method UpdateChunkMesh(t: Terrain, cx: int, cz: int, vertexBuffer: array<MeshVertex>, indexBuffer: array<int>)
    returns (vertexCount: int, indexCount: int)
    requires Sound(t.State())
    requires vertexBuffer.Length == CHUNK_VERTEX_COUNT && indexBuffer.Length == CHUNK_INDEX_COUNT
    requires indexBuffer != t.chunkMap
    modifies vertexBuffer, indexBuffer
    ensures 0 <= vertexCount <= CHUNK_VERTEX_COUNT && 0 <= indexCount <= CHUNK_INDEX_COUNT
    ensures vertexBuffer[..vertexCount] == MeshOf(t.State(), cx, cz, CHUNK_TILES).vertices
    ensures indexBuffer[..indexCount] == MeshOf(t.State(), cx, cz, CHUNK_TILES).indices
  {
    ghost var s := t.State();
    vertexCount, indexCount := 0, 0;
    for z := 0 to CHUNK_DIM
      invariant t.State() == s
      invariant 0 <= vertexCount <= CHUNK_VERTEX_COUNT && 0 <= indexCount <= CHUNK_INDEX_COUNT
      invariant vertexBuffer[..vertexCount] == MeshOf(s, cx, cz, z * CHUNK_DIM).vertices
      invariant indexBuffer[..indexCount] == MeshOf(s, cx, cz, z * CHUNK_DIM).indices
    {
      for x := 0 to CHUNK_DIM
        invariant t.State() == s
        invariant 0 <= vertexCount <= CHUNK_VERTEX_COUNT && 0 <= indexCount <= CHUNK_INDEX_COUNT
        invariant vertexBuffer[..vertexCount] == MeshOf(s, cx, cz, z * CHUNK_DIM + x).vertices
        invariant indexBuffer[..indexCount] == MeshOf(s, cx, cz, z * CHUNK_DIM + x).indices
      {
        vertexCount, indexCount := EmitTile(t, cx, cz, x, z, vertexBuffer, indexBuffer, vertexCount, indexCount);
      }
    }
  }
}
