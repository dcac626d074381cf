/** Mesh extraction (`get_mesh_data`, dae_parser.py:61-109): reads the
    position, normal and texture-coordinate arrays and the triangle index
    stream of the first geometry, and deduplicates the (p, n, t) index
    triples of the stream into vertices. */
module Mesh {
  import opened Common
  import opened Py
  import opened XmlTree

  /** A deduplicated vertex: the three float windows it was cut from, and
      the position index it came from (skin weights are keyed by it). */
  datatype Vertex = Vertex(position: seq<real>, normal: seq<real>, texture: seq<real>, posId: int)

  datatype MeshData = MeshData(vertices: seq<Vertex>, indices: seq<nat>)

  /** The raw float arrays of one mesh. */
  datatype Geometry = Geometry(positions: seq<real>, normals: seq<real>, textures: seq<real>)

  /** One triangle corner: (position index, normal index, texture index). */
  type Triple = (int, int, int)

  /** The complete (p, n, t) groups of the triangle index stream. */
  function Triples(corners: seq<int>): (r: seq<Triple>)
    ensures |r| == |corners| / 3
  {
    seq(|corners| / 3, k requires 0 <= k < |corners| / 3 => (corners[3 * k], corners[3 * k + 1], corners[3 * k + 2]))
  }

  /** The corners fill whole triples exactly when their number is a
      multiple of 3; otherwise one or two are left over. */
  lemma TriplesLength(corners: seq<int>)
    ensures 3 * |Triples(corners)| <= |corners| < 3 * |Triples(corners)| + 3
    ensures |corners| % 3 == 0 <==> |corners| == 3 * |Triples(corners)|
  {
  }

  /** The vertex built for a new triple: `positions[3p:3p+3]`,
      `normals[3n:3n+3]`, `textures[2t:2t+2]` with Python's slice rules. */
  function MakeVertex(g: Geometry, t: Triple): Vertex
  {
    Vertex(Slice(g.positions, 3 * t.0, 3 * t.0 + 3),
           Slice(g.normals, 3 * t.1, 3 * t.1 + 3),
           Slice(g.textures, 2 * t.2, 2 * t.2 + 2),
           t.0)
  }

  /** One vertex per triple, in the triples' order. */
  function Vertices(g: Geometry, d: seq<Triple>): (r: seq<Vertex>)
    ensures |r| == |d|
  {
    seq(|d|, j requires 0 <= j < |d| => MakeVertex(g, d[j]))
  }

  lemma VerticesAppend(g: Geometry, d: seq<Triple>, t: Triple)
    ensures Vertices(g, d + [t]) == Vertices(g, d) + [MakeVertex(g, t)]
  {
    assert forall j :: 0 <= j < |d| ==> (d + [t])[j] == d[j];
  }

  /** For in-range indices the vertex holds exactly the 3/3/2-float windows. */
  lemma MakeVertexWindows(g: Geometry, t: Triple)
    requires 0 <= t.0 && 3 * t.0 + 3 <= |g.positions|
    requires 0 <= t.1 && 3 * t.1 + 3 <= |g.normals|
    requires 0 <= t.2 && 2 * t.2 + 2 <= |g.textures|
    ensures MakeVertex(g, t).position == g.positions[3 * t.0..3 * t.0 + 3]
    ensures MakeVertex(g, t).normal == g.normals[3 * t.1..3 * t.1 + 3]
    ensures MakeVertex(g, t).texture == g.textures[2 * t.2..2 * t.2 + 2]
    ensures |MakeVertex(g, t).position| == 3 && |MakeVertex(g, t).normal| == 3 && |MakeVertex(g, t).texture| == 2
  {
    SliceInRange(g.positions, 3 * t.0, 3 * t.0 + 3);
    SliceInRange(g.normals, 3 * t.1, 3 * t.1 + 3);
    SliceInRange(g.textures, 2 * t.2, 2 * t.2 + 2);
  }

  /** The distinct elements of a sequence, in order of first appearance:
      the reference definition of the dedup order. */
  function FirstSeen<T(==)>(ts: seq<T>): seq<T>
  {
    if ts == [] then []
    else
      var d := FirstSeen(ts[..|ts| - 1]);
      if ts[|ts| - 1] in d then d else d + [ts[|ts| - 1]]
  }

  lemma {:induction false} FirstSeenProperties<T>(ts: seq<T>)
    ensures forall x :: x in FirstSeen(ts) <==> x in ts
    ensures Distinct(FirstSeen(ts))
    ensures |FirstSeen(ts)| <= |ts|
    decreases |ts|
  {
    if ts != [] {
      var init := ts[..|ts| - 1];
      FirstSeenProperties(init);
      assert ts == init + [ts[|ts| - 1]];
    }
  }

  /** The position of x in a sequence that holds it. */
  function Position<T(==)>(d: seq<T>, x: T): (r: nat)
    requires x in d
    ensures r < |d| && d[r] == x
    ensures forall j :: 0 <= j < r ==> d[j] != x
  {
    var r := IndexOf(d, x).value;
    assert forall j :: 0 <= j < r ==> d[j] == d[..r][j];
    r
  }

  lemma PositionAppend<T>(d: seq<T>, t: T, x: T)
    requires x in d
    ensures Position(d + [t], x) == Position(d, x)
  {
    var p, q := Position(d, x), Position(d + [t], x);
    assert (d + [t])[p] == x;
    assert q <= p;
    assert d[q] == (d + [t])[q];
  }

  lemma PositionLast<T>(d: seq<T>, t: T)
    requires t !in d
    ensures Position(d + [t], t) == |d|
  {
    assert (d + [t])[|d|] == t;
  }

  /** The specification of the dedup loop: vertices in first-seen order of
      their triples, and one index per corner pointing at its triple's vertex. */
  function DedupSpec(g: Geometry, ts: seq<Triple>): (m: MeshData)
    ensures |m.indices| == |ts|
  {
    var d := FirstSeen(ts);
    FirstSeenProperties(ts);
    MeshData(Vertices(g, d),
             seq(|ts|, k requires 0 <= k < |ts| => Position(d, ts[k])))
  }

  /** One more element extends the first-seen order only when it is new. */
  lemma FirstSeenStep<T>(ts: seq<T>, k: nat)
    requires k < |ts|
    ensures FirstSeen(ts[..k + 1]) ==
      if ts[k] in FirstSeen(ts[..k]) then FirstSeen(ts[..k]) else FirstSeen(ts[..k]) + [ts[k]]
  {
    assert ts[..k + 1][..k] == ts[..k];
  }

  /** In a sequence without repeats, an element's position is the one index
      that holds it. */
  lemma PositionDistinct<T>(d: seq<T>, i: nat)
    requires Distinct(d) && i < |d|
    ensures Position(d, d[i]) == i
  {
  }

  /** What the dedup loop holds after the corners `seen`, whose triples in
      first-seen order are d: one vertex per triple of d, one index per
      corner naming the slot of its triple, and `loaded` mapping each
      triple of d to its slot. */
  ghost predicate DedupState(g: Geometry, seen: seq<Triple>, d: seq<Triple>, vertices: seq<Vertex>,
                             indices: seq<nat>, loaded: map<Triple, nat>)
  {
    && vertices == Vertices(g, d)
    && |indices| == |seen|
    && (forall i :: 0 <= i < |seen| ==> indices[i] < |d| && d[indices[i]] == seen[i])
    && (forall x :: x in loaded <==> x in d)
    && (forall x :: x in loaded ==> loaded[x] < |d| && d[loaded[x]] == x)
    && |loaded| == |d|
  }

  /** An iteration on a triple already loaded keeps DedupState. */
  lemma DedupStepSeen(g: Geometry, seen: seq<Triple>, d: seq<Triple>, t: Triple, vertices: seq<Vertex>,
                      indices: seq<nat>, loaded: map<Triple, nat>)
    requires DedupState(g, seen, d, vertices, indices, loaded)
    requires t in loaded
    ensures DedupState(g, seen + [t], d, vertices, indices + [loaded[t]], loaded)
  {
    assert forall i :: 0 <= i < |seen| ==> (seen + [t])[i] == seen[i] && (indices + [loaded[t]])[i] == indices[i];
  }

  /** An iteration on a new triple keeps DedupState. */
  lemma DedupStepNew(g: Geometry, seen: seq<Triple>, d: seq<Triple>, t: Triple, vertices: seq<Vertex>,
                     indices: seq<nat>, loaded: map<Triple, nat>)
    requires DedupState(g, seen, d, vertices, indices, loaded)
    requires t !in loaded
    ensures DedupState(g, seen + [t], d + [t], vertices + [MakeVertex(g, t)], indices + [|loaded|],
                       loaded[t := |loaded|])
  {
    var d' := d + [t];
    assert forall j :: 0 <= j < |d| ==> d'[j] == d[j];
    assert forall i :: 0 <= i < |seen| ==> (seen + [t])[i] == seen[i] && (indices + [|loaded|])[i] == indices[i];
    VerticesAppend(g, d, t);
  }

  /** One iteration of the dedup loop on the k-th triple keeps DedupState,
      whether that triple is already loaded or new. */
  lemma DedupStep(g: Geometry, ts: seq<Triple>, k: nat, vertices: seq<Vertex>, indices: seq<nat>,
                  loaded: map<Triple, nat>)
    requires k < |ts| && DedupState(g, ts[..k], FirstSeen(ts[..k]), vertices, indices, loaded)
    ensures ts[k] in loaded ==>
      DedupState(g, ts[..k + 1], FirstSeen(ts[..k + 1]), vertices, indices + [loaded[ts[k]]], loaded)
    ensures ts[k] !in loaded ==>
      DedupState(g, ts[..k + 1], FirstSeen(ts[..k + 1]), vertices + [MakeVertex(g, ts[k])],
                 indices + [|loaded|], loaded[ts[k] := |loaded|])
  {
    var t := ts[k];
    assert ts[..k + 1] == ts[..k] + [t];
    FirstSeenStep(ts, k);
    FirstSeenProperties(ts[..k]);
    if t in loaded {
      DedupStepSeen(g, ts[..k], FirstSeen(ts[..k]), t, vertices, indices, loaded);
    } else {
      DedupStepNew(g, ts[..k], FirstSeen(ts[..k]), t, vertices, indices, loaded);
    }
  }

  /** The dedup loop (dae_parser.py:87-102). A stream whose length is not a
      multiple of 3 makes `indices[i + 1]` or `indices[i + 2]` raise. */
  method Deduplicate(g: Geometry, corners: seq<int>) returns (r: Result<MeshData>)
    ensures r.Err? <==> |corners| % 3 != 0
    ensures r.Err? ==> r.error == IndexOutOfRange
    ensures r.Ok? ==> r.value == DedupSpec(g, Triples(corners))
  {
    ghost var ts := Triples(corners);
    TriplesLength(corners);
    var vertices: seq<Vertex> := [];
    var indices: seq<nat> := [];
    var loaded: map<Triple, nat> := map[];
    var i := 0;
    ghost var k := 0;
    while i < |corners|
      invariant i == 3 * k && k <= |ts|
      invariant 3 * |ts| <= |corners| < 3 * |ts| + 3
      invariant DedupState(g, ts[..k], FirstSeen(ts[..k]), vertices, indices, loaded)
    {
      if i + 2 >= |corners| {
        return Err(IndexOutOfRange);
      }
      var t := (corners[i], corners[i + 1], corners[i + 2]);
      assert ts[k] == t;
      DedupStep(g, ts, k, vertices, indices, loaded);
      if t in loaded {
        indices := indices + [loaded[t]];
      } else {
        var index := |loaded|;
        vertices := vertices + [MakeVertex(g, t)];
        indices := indices + [index];
        loaded := loaded[t := index];
      }
      i, k := i + 3, k + 1;
    }
    assert ts[..k] == ts;
    DedupDone(g, ts, vertices, indices, loaded);
    r := Ok(MeshData(vertices, indices));
  }

  /** A loop state that has seen every corner is the specified result. */
  lemma DedupDone(g: Geometry, ts: seq<Triple>, vertices: seq<Vertex>, indices: seq<nat>, loaded: map<Triple, nat>)
    requires DedupState(g, ts, FirstSeen(ts), vertices, indices, loaded)
    ensures MeshData(vertices, indices) == DedupSpec(g, ts)
  {
    FirstSeenProperties(ts);
    forall i | 0 <= i < |ts|
      ensures indices[i] == Position(FirstSeen(ts), ts[i])
    {
      PositionDistinct(FirstSeen(ts), indices[i]);
    }
  }

  /** Every index points at a vertex, and that vertex was built from the
      corner's own triple. */
  lemma DedupIndicesValid(g: Geometry, ts: seq<Triple>, k: nat)
    requires k < |ts|
    ensures DedupSpec(g, ts).indices[k] < |DedupSpec(g, ts).vertices|
    ensures DedupSpec(g, ts).vertices[DedupSpec(g, ts).indices[k]] == MakeVertex(g, ts[k])
  {
    FirstSeenProperties(ts);
  }

  /** Two corners share an index exactly when they share a triple. */
  lemma DedupSameIndex(g: Geometry, ts: seq<Triple>, a: nat, b: nat)
    requires a < |ts| && b < |ts|
    ensures DedupSpec(g, ts).indices[a] == DedupSpec(g, ts).indices[b] <==> ts[a] == ts[b]
  {
    FirstSeenProperties(ts);
  }

  /** There is one vertex per distinct triple, and never more vertices than
      corners. */
  lemma DedupVertexCount(g: Geometry, ts: seq<Triple>)
    ensures |DedupSpec(g, ts).vertices| <= |ts|
    ensures forall t :: t in ts <==> t in FirstSeen(ts)
    ensures Distinct(FirstSeen(ts))
  {
    FirstSeenProperties(ts);
  }

  /** First-seen order: the dedup of a prefix is a prefix of the dedup. */
  lemma {:induction false} FirstSeenPrefix<T>(ts: seq<T>, k: nat)
    requires k <= |ts|
    ensures |FirstSeen(ts[..k])| <= |FirstSeen(ts)|
    ensures FirstSeen(ts[..k]) == FirstSeen(ts)[..|FirstSeen(ts[..k])|]
    decreases |ts| - k
  {
    if k < |ts| {
      FirstSeenPrefix(ts, k + 1);
      assert ts[..k + 1][..k] == ts[..k];
      assert ts[..k + 1] != [];
    } else {
      assert ts[..k] == ts;
    }
  }

  /** A triple seen for the first time at corner k gets the index that equals
      the number of vertices created before it (`len(loaded)`). */
  lemma DedupNewTriple(g: Geometry, ts: seq<Triple>, k: nat)
    requires k < |ts| && ts[k] !in ts[..k]
    ensures DedupSpec(g, ts).indices[k] == |FirstSeen(ts[..k])|
  {
    var d := FirstSeen(ts);
    var dk := FirstSeen(ts[..k]);
    FirstSeenProperties(ts);
    FirstSeenProperties(ts[..k]);
    FirstSeenProperties(ts[..k + 1]);
    FirstSeenPrefix(ts, k + 1);
    assert ts[..k + 1][..k] == ts[..k];
    assert ts[..k + 1][k] == ts[k];
    var dk1 := FirstSeen(ts[..k + 1]);
    assert dk1 == dk + [ts[k]];
    assert d[|dk|] == ts[k];
    assert ts[k] !in dk;
    assert d[..|dk|] == dk;
  }

  /** The mesh's sources (dae_parser.py:71-80): for each child with an `id`
      ending in "positions", "normals" or "map-0", the floats of its
      `float_array`; a later matching source replaces an earlier one. */
  function ScanSources(cs: seq<Element>, g: Geometry): Result<Geometry>
    decreases |cs|
  {
    if cs == [] then Ok(g)
    else
      var next :- SourceStep(cs[0], g);
      ScanSources(cs[1..], next)
  }

  /** One turn of the source loop (dae_parser.py:72-80): the first suffix
      the id ends with picks the array that the source's floats replace. */
  function SourceStep(source: Element, g: Geometry): (r: Result<Geometry>)
    ensures !IsSource(source) ==> r == Ok(g)
    ensures r.Err? ==> IsSource(source) && ChildFloats(source, "float_array") == Err(r.error)
    ensures r.Ok? ==> FromStep(source, g.positions, r.value.positions) && FromStep(source, g.normals, r.value.normals)
                        && FromStep(source, g.textures, r.value.textures)
  {
    match Attribute(source, "id")
    case None => Ok(g)
    case Some(id) =>
      if EndsWith(id, "positions") then
        var values :- ChildFloats(source, "float_array");
        Ok(g.(positions := values))
      else if EndsWith(id, "normals") then
        var values :- ChildFloats(source, "float_array");
        Ok(g.(normals := values))
      else if EndsWith(id, "map-0") then
        var values :- ChildFloats(source, "float_array");
        Ok(g.(textures := values))
      else Ok(g)
  }

  /** A child the source loop reads: its id ends in "positions", "normals"
      or "map-0". */
  predicate IsSource(e: Element)
  {
    && Attribute(e, "id").Some?
    && var id := Attribute(e, "id").value;
       EndsWith(id, "positions") || EndsWith(id, "normals") || EndsWith(id, "map-0")
  }

  /** After one source, an array is the one before it or that source's floats. */
  predicate FromStep(source: Element, before: seq<real>, after: seq<real>)
  {
    after == before || (IsSource(source) && ChildFloats(source, "float_array") == Ok(after))
  }

  /** After the loop, an array is the one it started with or the floats of
      one of the sources. */
  predicate FromSource(cs: seq<Element>, start: seq<real>, v: seq<real>)
  {
    v == start || exists i :: 0 <= i < |cs| && IsSource(cs[i]) && ChildFloats(cs[i], "float_array") == Ok(v)
  }

  /** The source loop keeps the arrays it starts with unless a source
      replaces them: children that are not sources change nothing, every
      array it returns is the start one or the floats of some source, and a
      failure is the failure of some source's float conversion. */
  lemma {:induction false} ScanSourcesFrom(cs: seq<Element>, g: Geometry)
    ensures (forall i :: 0 <= i < |cs| ==> !IsSource(cs[i])) ==> ScanSources(cs, g) == Ok(g)
    ensures ScanSources(cs, g).Ok? ==>
      var h := ScanSources(cs, g).value;
      FromSource(cs, g.positions, h.positions) && FromSource(cs, g.normals, h.normals) && FromSource(cs, g.textures, h.textures)
    ensures ScanSources(cs, g).Err? ==>
      exists i :: 0 <= i < |cs| && IsSource(cs[i]) && ChildFloats(cs[i], "float_array") == Err(ScanSources(cs, g).error)
    decreases |cs|
  {
    if cs != [] {
      var c, rest := cs[0], cs[1..];
      assert forall i :: 0 <= i < |rest| ==> rest[i] == cs[i + 1];
      var step := SourceStep(c, g);
      if step.Ok? {
        var g1 := step.value;
        ScanSourcesFrom(rest, g1);
        if ScanSources(cs, g).Ok? {
          var h := ScanSources(cs, g).value;
          FromSourceCons(c, rest, g.positions, g1.positions, h.positions);
          FromSourceCons(c, rest, g.normals, g1.normals, h.normals);
          FromSourceCons(c, rest, g.textures, g1.textures, h.textures);
        } else {
          var i :| 0 <= i < |rest| && IsSource(rest[i]) && ChildFloats(rest[i], "float_array") == Err(ScanSources(cs, g).error);
          assert cs[i + 1] == rest[i];
        }
      } else {
        assert cs[0] == c;
      }
    }
  }

  lemma FromSourceCons(c: Element, rest: seq<Element>, start: seq<real>, mid: seq<real>, v: seq<real>)
    requires FromStep(c, start, mid) && FromSource(rest, mid, v)
    ensures FromSource([c] + rest, start, v)
  {
    var cs := [c] + rest;
    if v == mid {
      if v != start {
        assert cs[0] == c;
      }
    } else {
      var i :| 0 <= i < |rest| && IsSource(rest[i]) && ChildFloats(rest[i], "float_array") == Ok(v);
      assert cs[i + 1] == rest[i];
    }
  }

  /** Scanning two runs of children is scanning the first and then, from
      what it leaves, the second: a later source replaces what an earlier
      one read. */
  lemma {:induction false} ScanSourcesAppend(cs: seq<Element>, ds: seq<Element>, g: Geometry)
    ensures ScanSources(cs + ds, g) ==
      match ScanSources(cs, g)
      case Ok(h) => ScanSources(ds, h)
      case Err(e) => Err(e)
    decreases |cs|
  {
    if cs == [] {
      assert cs + ds == ds;
    } else {
      assert (cs + ds)[0] == cs[0] && (cs + ds)[1..] == cs[1..] + ds;
      if SourceStep(cs[0], g).Ok? {
        ScanSourcesAppend(cs[1..], ds, SourceStep(cs[0], g).value);
      }
    }
  }

  /** Everything `get_mesh_data` reads before the dedup loop: the raw arrays
      and the triangle index stream of the first child of
      `library_geometries`, or None when that element has no children (the
      function then falls off its end and returns None). */
  function MeshSources(root: Element): Result<Option<(Geometry, seq<int>)>>
  {
    var geometries :- Get(root, "library_geometries");
    if geometries.None? then Err(NoneValue)
    else if geometries.value.children == [] then Ok(None)
    else
      var geometry := geometries.value.children[0];
      var mesh :- Get(geometry, "mesh");
      if mesh.None? then Err(NoneValue)
      else
        var g :- ScanSources(mesh.value.children, Geometry([], [], []));
        var triangles :- Get(mesh.value, "triangles");
        var corners :- ChildInts(triangles, "p");
        Ok(Some((g, corners)))
  }

  /** What `get_mesh_data(root)` returns or raises. */
  function MeshSpec(root: Element): (r: Result<Option<MeshData>>)
    ensures MeshSources(root).Err? ==> r == Err(MeshSources(root).error)
    ensures MeshSources(root) == Ok(None) ==> r == Ok(None)
    ensures MeshSources(root).Ok? && MeshSources(root).value.Some? ==>
      var (g, corners) := MeshSources(root).value.value;
      r == if |corners| % 3 != 0 then Err(IndexOutOfRange) else Ok(Some(DedupSpec(g, Triples(corners))))
  {
    var sources :- MeshSources(root);
    match sources
    case None => Ok(None)
    case Some((g, corners)) =>
      if |corners| % 3 != 0 then Err(IndexOutOfRange) else Ok(Some(DedupSpec(g, Triples(corners))))
  }

  /** `get_mesh_data(root)`. */
  method GetMeshData(root: Element) returns (r: Result<Option<MeshData>>)
    ensures r == MeshSpec(root)
  {
    var sources := MeshSources(root);
    match sources {
      case Err(e) => r := Err(e);
      case Ok(None) => r := Ok(None);
      case Ok(Some((g, corners))) =>
        var m := Deduplicate(g, corners);
        match m {
          case Err(e) => r := Err(e);
          case Ok(mesh) => r := Ok(Some(mesh));
        }
    }
  }
}
