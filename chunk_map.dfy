/** The terrain's chunk table as a value (src/terrain.h:11-66,
    src/terrain.c:175-325): a 32 x 32 map of chunk cells, each either
    `NO_CHUNK` or the id of a stored chunk of 16 x 16 tile heights and
    textures, and the save file that holds it. */
module ChunkMap {
  import opened Common

  const CHUNK_DIM: int := 16
  const MAX_MAP_DIM: int := 32
  /** MAX_MAP_DIM * MAX_MAP_DIM */
  const MAP_CELLS: int := 1024
  /** CHUNK_DIM * CHUNK_DIM */
  const CHUNK_TILES: int := 256
  const NO_CHUNK: int := -1
  const NO_TILE: real := 666.0

  type Byte = x: int | 0 <= x < 256

  datatype TileTexture = TileTexture(viewID: Byte, trans: Byte, x: Byte, y: Byte)

  /** `ChunkHeights` and `ChunkTextures`: one entry per tile. */
  type HeightBlock = s: seq<real> | |s| == 256 witness seq(256, _ => 666.0)
  type TextureBlock = s: seq<TileTexture> | |s| == 256 witness seq(256, _ => TileTexture(0, 0, 0, 0))

  /** A fresh chunk: every height `NO_TILE` (src/terrain.c:225-226). */
  function EmptyHeights(): (r: HeightBlock)
    ensures forall i :: 0 <= i < CHUNK_TILES ==> r[i] == NO_TILE
  {
    seq(256, _ => NO_TILE)
  }

  /** A fresh chunk: every texture zero (src/terrain.c:228-229). */
  function BlankTextures(): (r: TextureBlock)
    ensures forall i :: 0 <= i < CHUNK_TILES ==> r[i] == TileTexture(0, 0, 0, 0)
  {
    seq(256, _ => TileTexture(0, 0, 0, 0))
  }

  /** The map cell `cz * MAX_MAP_DIM + cx` and the tile `zp * CHUNK_DIM + xp`
      of a world coordinate. */
  datatype Place = Place(cell: int, tile: int)

  /** The coordinate split of `atTerrainHeight` and `maybeCreateChunk`
      (src/terrain.c:177-186, 201-212): nothing for a negative coordinate or
      a chunk coordinate past the map. */
  function Locate(x: int, z: int): (r: Option<Place>)
    ensures r.Some? <==> 0 <= x < CHUNK_DIM * MAX_MAP_DIM && 0 <= z < CHUNK_DIM * MAX_MAP_DIM
    ensures r.Some? ==> 0 <= r.value.cell < MAP_CELLS && 0 <= r.value.tile < CHUNK_TILES
  {
    if x < 0 || z < 0 then None
    else if x / CHUNK_DIM >= MAX_MAP_DIM || z / CHUNK_DIM >= MAX_MAP_DIM then None
    else Some(Place((z / CHUNK_DIM) * MAX_MAP_DIM + x / CHUNK_DIM, (z % CHUNK_DIM) * CHUNK_DIM + x % CHUNK_DIM))
  }

  /** Two coordinates never share a cell and a tile: writing one tile
      touches no other coordinate. */
  lemma LocateInjective(x1: int, z1: int, x2: int, z2: int)
    requires Locate(x1, z1).Some? && Locate(x1, z1) == Locate(x2, z2)
    ensures x1 == x2 && z1 == z2
  {
    var cx1, cz1, cx2, cz2 := x1 / 16, z1 / 16, x2 / 16, z2 / 16;
    var xp1, zp1, xp2, zp2 := x1 % 16, z1 % 16, x2 % 16, z2 % 16;
    assert cz1 * 32 + cx1 == cz2 * 32 + cx2 && zp1 * 16 + xp1 == zp2 * 16 + xp2;
    assert cx1 == cx2 && cz1 == cz2;
    assert xp1 == xp2 && zp1 == zp2;
  }

  /** The state of a `Terrain`: its chunk map, the stored chunks (indexed by
      chunk id) and `chunkCount`. */
  datatype Snapshot = Snapshot(chunkMap: seq<int>, heights: seq<HeightBlock>, textures: seq<TextureBlock>, chunkCount: int)

  /** Every mapped cell names a stored chunk: what the lookups need. */
  ghost predicate Sound(s: Snapshot)
  {
    && |s.chunkMap| == MAP_CELLS && |s.heights| == |s.textures|
    && forall i :: 0 <= i < MAP_CELLS ==> s.chunkMap[i] == NO_CHUNK || 0 <= s.chunkMap[i] < |s.heights|
  }

  /** The number of mapped cells below n. */
  function MappedCount(m: seq<int>, n: nat): (r: nat)
    requires n <= |m|
    ensures r <= n
  {
    if n == 0 then 0 else MappedCount(m, n - 1) + (if m[n - 1] == NO_CHUNK then 0 else 1)
  }

  /** The table invariant: `chunkCount` chunks are stored, as many cells are
      mapped, and no two cells share a chunk. */
  ghost predicate Valid(s: Snapshot)
  {
    && Sound(s) && s.chunkCount == |s.heights|
    && MappedCount(s.chunkMap, MAP_CELLS) == s.chunkCount
    && forall i, j :: 0 <= i < j < MAP_CELLS && s.chunkMap[i] != NO_CHUNK ==> s.chunkMap[i] != s.chunkMap[j]
  }

  /** `terrainClearChunkMap`'s map (src/terrain.c:264-268). */
  function ClearedMap(): (r: seq<int>)
    ensures |r| == MAP_CELLS && forall i :: 0 <= i < MAP_CELLS ==> r[i] == NO_CHUNK
  {
    seq(MAP_CELLS, _ => NO_CHUNK)
  }

  /** `atTerrainHeight` (src/terrain.c:175-194). */
  function HeightOf(s: Snapshot, x: int, z: int): real
    requires Sound(s)
  {
    match Locate(x, z)
    case None => NO_TILE
    case Some(p) => if s.chunkMap[p.cell] == NO_CHUNK then NO_TILE else s.heights[s.chunkMap[p.cell]][p.tile]
  }

  /** The texture stored for a coordinate, if a chunk covers it
      (src/terrain.c:131). */
  function TextureOf(s: Snapshot, x: int, z: int): Option<TileTexture>
    requires Sound(s)
  {
    match Locate(x, z)
    case None => None
    case Some(p) => if s.chunkMap[p.cell] == NO_CHUNK then None else Some(s.textures[s.chunkMap[p.cell]][p.tile])
  }

  /** A cleared map shows no tile anywhere. */
  lemma ClearedShowsNothing(s: Snapshot, x: int, z: int)
    requires |s.heights| == |s.textures| && s.chunkMap == ClearedMap()
    ensures Sound(s) && HeightOf(s, x, z) == NO_TILE && TextureOf(s, x, z).None?
  {
  }

  lemma {:induction false} ClearedCount(n: nat)
    requires n <= MAP_CELLS
    ensures MappedCount(ClearedMap(), n) == 0
  {
    if n > 0 {
      ClearedCount(n - 1);
    }
  }

  /** An empty terrain satisfies the table invariant. */
  lemma EmptyValid()
    ensures Valid(Snapshot(ClearedMap(), [], [], 0))
  {
    ClearedCount(MAP_CELLS);
  }

  /** Mapping one more cell counts one more. */
  lemma {:induction false} MappedCountUpdate(m: seq<int>, n: nat, p: nat, v: int)
    requires p < n <= |m| && m[p] == NO_CHUNK && v != NO_CHUNK
    ensures MappedCount(m[p := v], n) == MappedCount(m, n) + 1
  {
    if n - 1 != p {
      MappedCountUpdate(m, n - 1, p, v);
    } else {
      MappedCountPattern(m, m[p := v], n - 1);
    }
  }

  /** The count sees only which cells are mapped. */
  lemma {:induction false} MappedCountPattern(m1: seq<int>, m2: seq<int>, n: nat)
    requires n <= |m1| && n <= |m2|
    requires forall i :: 0 <= i < n ==> (m1[i] == NO_CHUNK <==> m2[i] == NO_CHUNK)
    ensures MappedCount(m1, n) == MappedCount(m2, n)
  {
    if n > 0 {
      MappedCountPattern(m1, m2, n - 1);
    }
  }

  /** The new chunk of `maybeCreateChunk` (src/terrain.c:216-233): it takes
      id `chunkCount`, which is then incremented. */
  function CreateChunk(s: Snapshot, cell: int): Snapshot
    requires 0 <= cell < |s.chunkMap|
  {
    Snapshot(s.chunkMap[cell := s.chunkCount], s.heights + [EmptyHeights()], s.textures + [BlankTextures()], s.chunkCount + 1)
  }

  /** `maybeCreateChunk`'s effect on the table (src/terrain.c:197-241). */
  function Ensure(s: Snapshot, x: int, z: int): Snapshot
    requires Sound(s)
  {
    match Locate(x, z)
    case None => s
    case Some(p) => if s.chunkMap[p.cell] == NO_CHUNK then CreateChunk(s, p.cell) else s
  }

  /** Creating a chunk keeps the invariant, maps the cell, and is invisible
      to every height lookup (its tiles are all `NO_TILE`, as an unmapped
      cell reads); textures already visible stay as they were. */
  lemma EnsureValid(s: Snapshot, x: int, z: int)
    requires Valid(s)
    ensures Valid(Ensure(s, x, z))
    ensures Locate(x, z).Some? ==> Ensure(s, x, z).chunkMap[Locate(x, z).value.cell] != NO_CHUNK
    ensures Locate(x, z).Some? && s.chunkMap[Locate(x, z).value.cell] != NO_CHUNK ==> Ensure(s, x, z) == s
    ensures forall x', z' :: HeightOf(Ensure(s, x, z), x', z') == HeightOf(s, x', z')
    ensures forall x', z' :: TextureOf(s, x', z').Some? ==> TextureOf(Ensure(s, x, z), x', z') == TextureOf(s, x', z')
  {
    if Locate(x, z).Some? && s.chunkMap[Locate(x, z).value.cell] == NO_CHUNK {
      var p := Locate(x, z).value;
      var e := CreateChunk(s, p.cell);
      MappedCountUpdate(s.chunkMap, MAP_CELLS, p.cell, s.chunkCount);
      assert forall i :: 0 <= i < MAP_CELLS && i != p.cell ==> e.chunkMap[i] == s.chunkMap[i];
      forall x', z' | Locate(x', z').Some?
        ensures HeightOf(e, x', z') == HeightOf(s, x', z')
        ensures TextureOf(s, x', z').Some? ==> TextureOf(e, x', z') == TextureOf(s, x', z')
      {
        var q := Locate(x', z').value;
        if q.cell != p.cell && s.chunkMap[q.cell] != NO_CHUNK {
          assert e.heights[s.chunkMap[q.cell]] == s.heights[s.chunkMap[q.cell]];
          assert e.textures[s.chunkMap[q.cell]] == s.textures[s.chunkMap[q.cell]];
        }
      }
    }
  }

  /** `setTerrainHeight` (src/terrain.c:244-251). */
  function WithHeight(s: Snapshot, x: int, z: int, h: real): Snapshot
    requires Valid(s)
  {
    EnsureValid(s, x, z);
    var e := Ensure(s, x, z);
    match Locate(x, z)
    case None => e
    case Some(p) =>
      var id := e.chunkMap[p.cell];
      e.(heights := e.heights[id := e.heights[id][p.tile := h]])
  }

  /** `setTerrainTexture` (src/terrain.c:254-261). */
  function WithTexture(s: Snapshot, x: int, z: int, t: TileTexture): Snapshot
    requires Valid(s)
  {
    EnsureValid(s, x, z);
    var e := Ensure(s, x, z);
    match Locate(x, z)
    case None => e
    case Some(p) =>
      var id := e.chunkMap[p.cell];
      e.(textures := e.textures[id := e.textures[id][p.tile := t]])
  }

  /** After `setTerrainHeight(x, z, h)` on the map, `atTerrainHeight(x, z)`
      is h, every other coordinate reads what it read before, and every
      visible texture is kept; off the map nothing changes. */
  lemma SetHeightSpec(s: Snapshot, x: int, z: int, h: real)
    requires Valid(s)
    ensures Valid(WithHeight(s, x, z, h))
    ensures Locate(x, z).None? ==> WithHeight(s, x, z, h) == s
    ensures Locate(x, z).Some? ==> HeightOf(WithHeight(s, x, z, h), x, z) == h
    ensures forall x', z' :: (x' != x || z' != z) ==> HeightOf(WithHeight(s, x, z, h), x', z') == HeightOf(s, x', z')
    ensures forall x', z' :: TextureOf(s, x', z').Some? ==> TextureOf(WithHeight(s, x, z, h), x', z') == TextureOf(s, x', z')
  {
    EnsureValid(s, x, z);
    if Locate(x, z).Some? {
      var p := Locate(x, z).value;
      var e := Ensure(s, x, z);
      var id := e.chunkMap[p.cell];
      var r := WithHeight(s, x, z, h);
      assert r.chunkMap == e.chunkMap && r.textures == e.textures;
      forall x', z' | (x' != x || z' != z) && Locate(x', z').Some?
        ensures HeightOf(r, x', z') == HeightOf(e, x', z')
      {
        var q := Locate(x', z').value;
        if q.cell == p.cell {
          if q.tile == p.tile {
            LocateInjective(x, z, x', z');
          }
        } else if e.chunkMap[q.cell] != NO_CHUNK {
          assert e.chunkMap[q.cell] != id by {
            if q.cell < p.cell {
              assert e.chunkMap[q.cell] != e.chunkMap[p.cell];
            } else {
              assert e.chunkMap[p.cell] != e.chunkMap[q.cell];
            }
          }
        }
      }
    }
  }

  /** After `setTerrainTexture(x, z, t)` on the map, the texture at (x, z)
      is t, every other visible texture is kept, and no height changes. */
  lemma SetTextureSpec(s: Snapshot, x: int, z: int, t: TileTexture)
    requires Valid(s)
    ensures Valid(WithTexture(s, x, z, t))
    ensures Locate(x, z).None? ==> WithTexture(s, x, z, t) == s
    ensures Locate(x, z).Some? ==> TextureOf(WithTexture(s, x, z, t), x, z) == Some(t)
    ensures forall x', z' :: (x' != x || z' != z) && TextureOf(s, x', z').Some? ==>
      TextureOf(WithTexture(s, x, z, t), x', z') == TextureOf(s, x', z')
    ensures forall x', z' :: HeightOf(WithTexture(s, x, z, t), x', z') == HeightOf(s, x', z')
  {
    EnsureValid(s, x, z);
    if Locate(x, z).Some? {
      var p := Locate(x, z).value;
      var e := Ensure(s, x, z);
      var id := e.chunkMap[p.cell];
      var r := WithTexture(s, x, z, t);
      assert r.chunkMap == e.chunkMap && r.heights == e.heights;
      forall x', z' | (x' != x || z' != z) && Locate(x', z').Some?
        ensures TextureOf(r, x', z') == TextureOf(e, x', z')
      {
        var q := Locate(x', z').value;
        if q.cell == p.cell {
          if q.tile == p.tile {
            LocateInjective(x, z, x', z');
          }
        } else if e.chunkMap[q.cell] != NO_CHUNK {
          assert e.chunkMap[q.cell] != id by {
            if q.cell < p.cell {
              assert e.chunkMap[q.cell] != e.chunkMap[p.cell];
            } else {
              assert e.chunkMap[p.cell] != e.chunkMap[q.cell];
            }
          }
        }
      }
    }
  }

  /** One chunk as `terrainSave` writes it (src/terrain.c:314-321): its
      map coordinates, then its heights and textures. */
  datatype ChunkRecord = ChunkRecord(cx: int, cz: int, heights: HeightBlock, textures: TextureBlock)

  /** A terrain file, field by field: the 4-byte tag, `chunkCount`, then
      the chunk records. */
  datatype TerrainFile = TerrainFile(magic: string, chunkCount: int, records: seq<ChunkRecord>)

  const MAGIC: string := "TERR"

  /** The records `terrainSave` writes for the cells below n, in the order of
      its `cz`-major loop (src/terrain.c:310-324), which is cell order. */
  function SaveRecords(s: Snapshot, n: nat): (r: seq<ChunkRecord>)
    requires Sound(s) && n <= MAP_CELLS
  {
    if n == 0 then []
    else
      var c := n - 1;
      var id := s.chunkMap[c];
      SaveRecords(s, c) + (if id == NO_CHUNK then [] else [ChunkRecord(c % MAX_MAP_DIM, c / MAX_MAP_DIM, s.heights[id], s.textures[id])])
  }

  /** `terrainSave` (src/terrain.c:305-325). */
  function SavedFile(s: Snapshot): TerrainFile
    requires Sound(s)
  {
    TerrainFile(MAGIC, s.chunkCount, SaveRecords(s, MAP_CELLS))
  }

  /** Why `terrainLoad` gives up: a wrong tag (`exit(666)`), a short read
      (`safe_read`), or a record whose cell lies outside the map, which the
      C code would write out of bounds. */
  datatype LoadError = BadMagic | ShortRead | OutsideMap

  datatype Loaded = Loaded(value: Snapshot) | Failed(error: LoadError)

  /** The records loaded in order: record i maps its cell to chunk i and
      stores its chunk as chunk i (src/terrain.c:284-301). */
  function LoadRecords(recs: seq<ChunkRecord>): (r: Loaded)
    ensures r.Loaded? ==> Sound(r.value) && |r.value.heights| == |recs|
    ensures r.Failed? ==> r.error == OutsideMap
  {
    if recs == [] then Loaded(Snapshot(ClearedMap(), [], [], 0))
    else
      match LoadRecords(recs[..|recs| - 1])
      case Failed(e) => Failed(e)
      case Loaded(t) => LoadNext(t, recs[|recs| - 1], |recs| - 1)
  }

  /** Record i loaded into t: a cell outside the map is an error; otherwise
      the cell maps to chunk i, which stores the record's blocks. */
  function LoadNext(t: Snapshot, rec: ChunkRecord, i: nat): Loaded
    requires |t.chunkMap| == MAP_CELLS
  {
    var cell := rec.cz * MAX_MAP_DIM + rec.cx;
    if cell < 0 || cell >= MAP_CELLS then Failed(OutsideMap)
    else Loaded(Snapshot(t.chunkMap[cell := i], t.heights + [rec.heights], t.textures + [rec.textures], i + 1))
  }

  /** `terrainLoad` (src/terrain.c:271-302): the map cleared, the tag
      checked, `chunkCount` read, then that many records (none when it is
      negative). */
  function LoadFile(f: TerrainFile): (r: Loaded)
    ensures r.Loaded? ==> Sound(r.value) && r.value.chunkCount == f.chunkCount
    ensures f.magic != MAGIC ==> r == Failed(BadMagic)
    ensures r.Loaded? ==> |r.value.heights| == (if f.chunkCount < 0 then 0 else f.chunkCount)
    ensures f.magic == MAGIC && f.chunkCount > |f.records| ==> r.Failed?
  {
    if f.magic != MAGIC then Failed(BadMagic)
    else
      var n := if f.chunkCount < 0 then 0 else f.chunkCount;
      var k := if n <= |f.records| then n else |f.records|;
      match LoadRecords(f.records[..k])
      case Failed(e) => Failed(e)
      case Loaded(t) =>
        if n > |f.records| then Failed(ShortRead)
        else Loaded(t.(chunkCount := f.chunkCount))
  }

  /** `terrainSave` writes one record per mapped cell. */
  lemma {:induction false} SaveRecordsCount(s: Snapshot, n: nat)
    requires Sound(s) && n <= MAP_CELLS
    ensures |SaveRecords(s, n)| == MappedCount(s.chunkMap, n)
  {
    if n > 0 {
      SaveRecordsCount(s, n - 1);
    }
  }

  /** What loading the records saved for the cells below n gives: exactly
      those of them that were mapped are mapped, each to a chunk with the
      same heights and textures, and no two cells to the same chunk. */
  ghost predicate LoadedMatches(s: Snapshot, n: nat, l: Snapshot)
    requires Sound(s) && Sound(l)
  {
    && (forall c :: 0 <= c < MAP_CELLS ==>
          if c < n && s.chunkMap[c] != NO_CHUNK then
            l.chunkMap[c] != NO_CHUNK && l.heights[l.chunkMap[c]] == s.heights[s.chunkMap[c]]
            && l.textures[l.chunkMap[c]] == s.textures[s.chunkMap[c]]
          else l.chunkMap[c] == NO_CHUNK)
    && (forall i, j :: 0 <= i < j < MAP_CELLS && l.chunkMap[i] != NO_CHUNK ==> l.chunkMap[i] != l.chunkMap[j])
  }

  lemma {:induction false} SaveLoadPrefix(s: Snapshot, n: nat)
    requires Sound(s) && n <= MAP_CELLS
    ensures LoadRecords(SaveRecords(s, n)).Loaded?
    ensures LoadedMatches(s, n, LoadRecords(SaveRecords(s, n)).value)
  {
    if n > 0 {
      var c := n - 1;
      SaveLoadPrefix(s, c);
      var a := SaveRecords(s, c);
      var t := LoadRecords(a).value;
      if s.chunkMap[c] != NO_CHUNK {
        var id := s.chunkMap[c];
        var rec := ChunkRecord(c % MAX_MAP_DIM, c / MAX_MAP_DIM, s.heights[id], s.textures[id]);
        assert SaveRecords(s, n) == a + [rec];
        assert rec.cz * MAX_MAP_DIM + rec.cx == c;
        LoadRecordsSnoc(a, rec, t);
        var l := Snapshot(t.chunkMap[c := |a|], t.heights + [rec.heights], t.textures + [rec.textures], |a| + 1);
        assert LoadNext(t, rec, |a|) == Loaded(l);
        LoadStep(s, c, t, l);
      } else {
        assert SaveRecords(s, n) == a;
        LoadSkip(s, c, t);
      }
    }
  }

  /** Loading one more record inside the map gives its cell the next chunk. */
  lemma LoadRecordsSnoc(a: seq<ChunkRecord>, rec: ChunkRecord, t: Snapshot)
    requires LoadRecords(a) == Loaded(t)
    ensures LoadRecords(a + [rec]) == LoadNext(t, rec, |a|)
  {
    var recs := a + [rec];
    assert recs[..|recs| - 1] == a && recs[|recs| - 1] == rec;
  }

  /** A saved record for mapped cell c, loaded after the records before it. */
  lemma LoadStep(s: Snapshot, c: nat, t: Snapshot, l: Snapshot)
    requires Sound(s) && Sound(t) && c < MAP_CELLS && s.chunkMap[c] != NO_CHUNK && LoadedMatches(s, c, t)
    requires l == Snapshot(t.chunkMap[c := |t.heights|], t.heights + [s.heights[s.chunkMap[c]]],
                           t.textures + [s.textures[s.chunkMap[c]]], |t.heights| + 1)
    ensures Sound(l) && LoadedMatches(s, c + 1, l)
  {
    assert t.chunkMap[c] == NO_CHUNK;
    forall c' | 0 <= c' < MAP_CELLS && c' != c && t.chunkMap[c'] != NO_CHUNK
      ensures l.chunkMap[c'] == t.chunkMap[c'] < |t.heights|
      ensures l.heights[l.chunkMap[c']] == t.heights[t.chunkMap[c']] && l.textures[l.chunkMap[c']] == t.textures[t.chunkMap[c']]
    {
    }
  }

  /** An unmapped cell writes no record and changes nothing. */
  lemma LoadSkip(s: Snapshot, c: nat, t: Snapshot)
    requires Sound(s) && Sound(t) && c < MAP_CELLS && s.chunkMap[c] == NO_CHUNK && LoadedMatches(s, c, t)
    ensures LoadedMatches(s, c + 1, t)
  {
  }

  /** Saving a terrain and loading the file back succeeds, keeps the table
      invariant and shows the same height and texture at every coordinate,
      though chunk ids may be renumbered. */
  lemma SaveLoadRoundTrip(s: Snapshot)
    requires Valid(s)
    ensures LoadFile(SavedFile(s)).Loaded?
    ensures Valid(LoadFile(SavedFile(s)).value)
    ensures forall x, z :: HeightOf(LoadFile(SavedFile(s)).value, x, z) == HeightOf(s, x, z)
    ensures forall x, z :: TextureOf(LoadFile(SavedFile(s)).value, x, z) == TextureOf(s, x, z)
  {
    var recs := SaveRecords(s, MAP_CELLS);
    SaveRecordsCount(s, MAP_CELLS);
    assert recs[..s.chunkCount] == recs;
    SaveLoadPrefix(s, MAP_CELLS);
    var l := LoadRecords(recs).value;
    assert LoadFile(SavedFile(s)) == Loaded(l.(chunkCount := s.chunkCount));
    MappedCountPattern(l.chunkMap, s.chunkMap, MAP_CELLS);
  }

  /** Where `terrainLoad`'s record loop ends with the first i records
      loaded: at the record count the file is loaded, and before it (the
      file has no more records) the load fails on a short read. */
  lemma LoadFileEnds(f: TerrainFile, i: nat, t: Snapshot)
    requires f.magic == MAGIC && i <= |f.records| && LoadRecords(f.records[..i]) == Loaded(t)
    requires i == (if f.chunkCount < 0 then 0 else f.chunkCount) || (i < f.chunkCount && i == |f.records|)
    ensures LoadFile(f) == if i < f.chunkCount then Failed(ShortRead) else Loaded(t.(chunkCount := f.chunkCount))
  {
    assert f.records[..|f.records|] == f.records;
  }

  /** A record that fails to load stops every longer load too. */
  lemma {:induction false} LoadFailsOn(recs: seq<ChunkRecord>, i: nat, k: nat)
    requires i < k <= |recs| && LoadRecords(recs[..i + 1]).Failed?
    ensures LoadRecords(recs[..k]) == Failed(OutsideMap)
    decreases k
  {
    if k > i + 1 {
      LoadFailsOn(recs, i, k - 1);
      assert recs[..k][..k - 1] == recs[..k - 1];
    }
  }
}
