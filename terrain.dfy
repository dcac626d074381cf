/** The engine's terrain table (src/terrain.c:175-325): a `Terrain` whose
    chunk map, stored chunks and `chunkCount` the editing and file
    operations update in place. */
module Terrain {
  import opened Common
  import opened ChunkMap

  /** `TerrainLocation`: the chunk of a coordinate and the tile inside it. */
  datatype Location = Location(chunkID: int, xp: int, zp: int)

  /** The fill loops of a new chunk (src/terrain.c:220-229): every height
      `NO_TILE`, every texture zero. */
  method NewChunkData() returns (chunkHeights: HeightBlock, chunkTextures: TextureBlock)
    ensures forall i :: 0 <= i < CHUNK_TILES ==> chunkHeights[i] == NO_TILE
    ensures forall i :: 0 <= i < CHUNK_TILES ==> chunkTextures[i] == TileTexture(0, 0, 0, 0)
  {
    var hs := new real[CHUNK_TILES];
    for i := 0 to CHUNK_TILES
      invariant forall j :: 0 <= j < i ==> hs[j] == NO_TILE
    {
      hs[i] := NO_TILE;
    }
    chunkHeights := hs[..];
    // `malloc` leaves the block's contents unknown; a non-zero texture
    // stands for them, so only the loop makes them zero.
    var ts := new TileTexture[CHUNK_TILES](_ => TileTexture(1, 0, 0, 0));
    for i := 0 to CHUNK_TILES
      invariant forall j :: 0 <= j < i ==> ts[j] == TileTexture(0, 0, 0, 0)
    {
      ts[i] := TileTexture(0, 0, 0, 0);
    }
    chunkTextures := ts[..];
  }

  class Terrain {
    /** `chunkMap[cz * MAX_MAP_DIM + cx]`: a chunk id or `NO_CHUNK`. */
    const chunkMap: array<int>
    /** `heights[id]` and `textures[id]` for each stored chunk id. */
    var heights: seq<HeightBlock>
    var textures: seq<TextureBlock>
    var chunkCount: int

    function State(): Snapshot
      reads this, chunkMap
    {
      Snapshot(chunkMap[..], heights, textures, chunkCount)
    }

    /** An empty table: no cell mapped, no chunk stored. */
    constructor()
      ensures State() == Snapshot(ClearedMap(), [], [], 0) && Valid(State())
      ensures fresh(chunkMap)
    {
      chunkMap := new int[MAP_CELLS](_ => NO_CHUNK);
      heights := [];
      textures := [];
      chunkCount := 0;
      new;
      assert chunkMap[..] == ClearedMap();
      EmptyValid();
    }

    /** `terrainClearChunkMap` (src/terrain.c:264-268): every cell unmapped;
        `chunkCount` and the stored chunks are left as they were. */
    method ClearChunkMap()
      requires chunkMap.Length == MAP_CELLS
      modifies chunkMap
      ensures chunkMap[..] == ClearedMap()
    {
      for i := 0 to MAP_CELLS
        invariant forall j :: 0 <= j < i ==> chunkMap[j] == NO_CHUNK
      {
        chunkMap[i] := NO_CHUNK;
      }
    }

    /** `maybeCreateChunk` (src/terrain.c:197-241): the location of (x, z),
        creating its chunk if the cell is unmapped. */
    method MaybeCreateChunk(x: int, z: int) returns (loc: Location)
      requires Valid(State())
      modifies this, chunkMap
      ensures State() == Ensure(old(State()), x, z) && Valid(State())
      ensures Locate(x, z).None? ==> loc.chunkID == NO_CHUNK
      ensures Locate(x, z).Some? ==>
        loc == Location(chunkMap[Locate(x, z).value.cell], x % CHUNK_DIM, z % CHUNK_DIM) && 0 <= loc.chunkID < chunkCount
    {
      EnsureValid(State(), x, z);
      if x < 0 || z < 0 {
        return Location(NO_CHUNK, 0, 0);
      }
      var cx, xp, cz, zp := x / CHUNK_DIM, x % CHUNK_DIM, z / CHUNK_DIM, z % CHUNK_DIM;
      if cx >= MAX_MAP_DIM || cz >= MAX_MAP_DIM {
        return Location(NO_CHUNK, 0, 0);
      }
      var chunkPos := cz * MAX_MAP_DIM + cx;
      var chunkID := chunkMap[chunkPos];
      if chunkID == NO_CHUNK {
        chunkID := chunkCount;
        chunkCount := chunkCount + 1;
        chunkMap[chunkPos] := chunkID;
        var chunkHeights, chunkTextures := NewChunkData();
        assert chunkHeights == EmptyHeights() && chunkTextures == BlankTextures();
        heights := heights + [chunkHeights];
        textures := textures + [chunkTextures];
        assert chunkMap[..] == old(chunkMap[..])[chunkPos := old(chunkCount)];
      }
      loc := Location(chunkID, xp, zp);
    }

    /** `setTerrainHeight` (src/terrain.c:244-251). */
    method SetHeight(x: int, z: int, height: real)
      requires Valid(State())
      modifies this, chunkMap
      ensures State() == WithHeight(old(State()), x, z, height) && Valid(State())
    {
      SetHeightSpec(State(), x, z, height);
      var loc := MaybeCreateChunk(x, z);
      if loc.chunkID == NO_CHUNK {
        return;
      }
      heights := heights[loc.chunkID := heights[loc.chunkID][loc.zp * CHUNK_DIM + loc.xp := height]];
    }

    /** `setTerrainTexture` (src/terrain.c:254-261). */
    method SetTexture(x: int, z: int, tileTexture: TileTexture)
      requires Valid(State())
      modifies this, chunkMap
      ensures State() == WithTexture(old(State()), x, z, tileTexture) && Valid(State())
    {
      SetTextureSpec(State(), x, z, tileTexture);
      var loc := MaybeCreateChunk(x, z);
      if loc.chunkID == NO_CHUNK {
        return;
      }
      textures := textures[loc.chunkID := textures[loc.chunkID][loc.zp * CHUNK_DIM + loc.xp := tileTexture]];
    }

    /** `terrainSave` (src/terrain.c:305-325): the file it writes. */
    method Save() returns (file: TerrainFile)
      requires Sound(State())
      ensures file == SavedFile(State())
    {
      var records: seq<ChunkRecord> := [];
      for cz := 0 to MAX_MAP_DIM
        invariant records == SaveRecords(State(), cz * MAX_MAP_DIM)
      {
        for cx := 0 to MAX_MAP_DIM
          invariant records == SaveRecords(State(), cz * MAX_MAP_DIM + cx)
        {
          var cell := cz * MAX_MAP_DIM + cx;
          assert cell % MAX_MAP_DIM == cx && cell / MAX_MAP_DIM == cz;
          var chunkID := chunkMap[cell];
          if chunkID != NO_CHUNK {
            records := records + [ChunkRecord(cx, cz, heights[chunkID], textures[chunkID])];
          }
        }
      }
      file := TerrainFile(MAGIC, chunkCount, records);
    }

    /** `terrainLoad` (src/terrain.c:271-302): on success the table is the
        one the file describes; a failure ends the program in the C code,
        so the state it leaves is not specified. */
    method Load(file: TerrainFile) returns (error: Option<LoadError>)
      requires chunkMap.Length == MAP_CELLS
      modifies this, chunkMap
      ensures error.None? <==> LoadFile(file).Loaded?
      ensures error.Some? ==> error.value == LoadFile(file).error
      ensures error.None? ==> State() == LoadFile(file).value
    {
      ClearChunkMap();
      if file.magic != MAGIC {
        return Some(BadMagic);
      }
      chunkCount := file.chunkCount;
      heights := [];
      textures := [];
      var i := 0;
      assert file.records[..0] == [];
      while i < chunkCount
        invariant 0 <= i <= |file.records| && (chunkCount < 0 ==> i == 0) && (chunkCount >= 0 ==> i <= chunkCount)
        invariant chunkCount == file.chunkCount
        invariant LoadRecords(file.records[..i]) == Loaded(Snapshot(chunkMap[..], heights, textures, i))
      {
        if i >= |file.records| {
          LoadFileEnds(file, i, State().(chunkCount := i));
          return Some(ShortRead);
        }
        var rec := file.records[i];
        var cell := rec.cz * MAX_MAP_DIM + rec.cx;
        assert file.records[..i + 1] == file.records[..i] + [rec];
        LoadRecordsSnoc(file.records[..i], rec, Snapshot(chunkMap[..], heights, textures, i));
        if cell < 0 || cell >= MAP_CELLS {
          LoadFailsOn(file.records, i, if chunkCount <= |file.records| then chunkCount else |file.records|);
          return Some(OutsideMap);
        }
        ghost var before := chunkMap[..];
        chunkMap[cell] := i;
        assert chunkMap[..] == before[cell := i];
        heights := heights + [rec.heights];
        textures := textures + [rec.textures];
        i := i + 1;
      }
      LoadFileEnds(file, i, State().(chunkCount := i));
      error := None;
    }
  }
}
