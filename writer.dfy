/** The script's writing half (dae_parser.py:290-372): an output file that
    grows by one `f.write(struct.pack(...))` at a time, and the loops that
    write each section. Every method is proved to leave the file holding
    exactly the words of its section's specification in `Emitter`, and to
    stop with the same exception. */
module Writer {
  import opened Common
  import opened Py
  import opened XmlTree
  import opened Mesh
  import opened Skin
  import opened Frames
  import opened Skeleton
  import opened Influence
  import opened Stream
  import opened Emitter

  /** `f = open("output.bin", "wb")`. */
  class OutputFile {
    var words: seq<Word>

    constructor ()
      ensures words == []
    {
      words := [];
    }

    /** `f.write(struct.pack(...))`: the pack either raises, writing
        nothing, or its words are appended. */
    method Write(packed: Result<seq<Word>>) returns (failure: Option<Error>)
      modifies this
      ensures words == old(words) + Packed(packed).words
      ensures failure == Packed(packed).failure
    {
      match packed {
        case Ok(ws) =>
          words := words + ws;
          failure := None;
        case Err(e) =>
          failure := Some(e);
      }
    }
  }

  method WriteHeader(f: OutputFile, p: Parsed) returns (failure: Option<Error>)
    modifies f
    ensures f.words == old(f.words) + HeaderEmission(p).words
    ensures failure == HeaderEmission(p).failure
  {
    failure := f.Write(PackInt(|p.mesh.vertices|));
    if failure.Some? {
      return;
    }
    failure := f.Write(PackInt(|p.mesh.indices|));
    if failure.Some? {
      return;
    }
    failure := f.Write(PackInt(|p.skin.names|));
  }

  method WriteVertex(f: OutputFile, v: Vertex, f32: real -> Word) returns (failure: Option<Error>)
    modifies f
    ensures f.words == old(f.words) + VertexEmission(v, f32).words
    ensures failure == VertexEmission(v, f32).failure
  {
    failure := f.Write(PackFloats(v.position, 3, f32));
    if failure.Some? {
      return;
    }
    failure := f.Write(PackFloats(v.normal, 3, f32));
    if failure.Some? {
      return;
    }
    failure := f.Write(PackFloats(v.texture, 2, f32));
  }

  /** dae_parser.py:298-301. */
  method WriteVertices(f: OutputFile, vs: seq<Vertex>, f32: real -> Word) returns (failure: Option<Error>)
    modifies f
    ensures f.words == old(f.words) + Sequence(VertexParts(vs, f32)).words
    ensures failure == Sequence(VertexParts(vs, f32)).failure
  {
    ghost var es := VertexParts(vs, f32);
    var k := 0;
    while k < |vs|
      invariant 0 <= k <= |vs|
      invariant f.words == old(f.words) + Sequence(es[..k]).words
      invariant Sequence(es[..k]).failure.None?
    {
      ghost var before := f.words;
      failure := WriteVertex(f, vs[k], f32);
      LoopStep(es, k, old(f.words), before, f.words, failure);
      if failure.Some? {
        return;
      }
      k := k + 1;
    }
    assert es[..k] == es;
    failure := None;
  }

  method WriteInfluence(f: OutputFile, weights: seq<Influences>, v: Vertex, f32: real -> Word, sqrt: real -> real)
    returns (failure: Option<Error>)
    modifies f
    ensures f.words == old(f.words) + InfluenceEmission(weights, v, f32, sqrt).words
    ensures failure == InfluenceEmission(weights, v, f32, sqrt).failure
  {
    var influences := VertexInfluences(weights, v.posId, sqrt);
    if influences.Err? {
      return Some(influences.error);
    }
    failure := WriteIdsWeights(f, influences.value.0, influences.value.1, f32);
  }

  method WriteIdsWeights(f: OutputFile, ids: seq<int>, ws: seq<real>, f32: real -> Word) returns (failure: Option<Error>)
    modifies f
    ensures f.words == old(f.words) + IdsWeightsEmission(ids, ws, f32).words
    ensures failure == IdsWeightsEmission(ids, ws, f32).failure
  {
    failure := f.Write(PackUInts(ids));
    if failure.Some? {
      return;
    }
    failure := f.Write(PackFloats(ws, 4, f32));
  }

  /** dae_parser.py:307-323. */
  method WriteInfluences(f: OutputFile, weights: seq<Influences>, vs: seq<Vertex>, f32: real -> Word, sqrt: real -> real)
    returns (failure: Option<Error>)
    modifies f
    ensures f.words == old(f.words) + Sequence(InfluenceParts(weights, vs, f32, sqrt)).words
    ensures failure == Sequence(InfluenceParts(weights, vs, f32, sqrt)).failure
  {
    ghost var es := InfluenceParts(weights, vs, f32, sqrt);
    var k := 0;
    while k < |vs|
      invariant 0 <= k <= |vs|
      invariant f.words == old(f.words) + Sequence(es[..k]).words
      invariant Sequence(es[..k]).failure.None?
    {
      ghost var before := f.words;
      failure := WriteInfluence(f, weights, vs[k], f32, sqrt);
      LoopStep(es, k, old(f.words), before, f.words, failure);
      if failure.Some? {
        return;
      }
      k := k + 1;
    }
    assert es[..k] == es;
    failure := None;
  }

  /** dae_parser.py:326-327. */
  method WriteIbms(f: OutputFile, ibms: seq<seq<real>>, f32: real -> Word) returns (failure: Option<Error>)
    modifies f
    ensures f.words == old(f.words) + Sequence(IbmParts(ibms, f32)).words
    ensures failure == Sequence(IbmParts(ibms, f32)).failure
  {
    ghost var es := IbmParts(ibms, f32);
    var k := 0;
    while k < |ibms|
      invariant 0 <= k <= |ibms|
      invariant f.words == old(f.words) + Sequence(es[..k]).words
      invariant Sequence(es[..k]).failure.None?
    {
      ghost var before := f.words;
      failure := f.Write(PackFloats(ibms[k], 16, f32));
      LoopStep(es, k, old(f.words), before, f.words, failure);
      if failure.Some? {
        return;
      }
      k := k + 1;
    }
    assert es[..k] == es;
    failure := None;
  }

  /** dae_parser.py:330-331. */
  method WriteFrameCounts(f: OutputFile, frames: seq<BoneFrames>) returns (failure: Option<Error>)
    modifies f
    ensures f.words == old(f.words) + Sequence(FrameCountParts(frames)).words
    ensures failure == Sequence(FrameCountParts(frames)).failure
  {
    ghost var es := FrameCountParts(frames);
    var k := 0;
    while k < |frames|
      invariant 0 <= k <= |frames|
      invariant f.words == old(f.words) + Sequence(es[..k]).words
      invariant Sequence(es[..k]).failure.None?
    {
      ghost var before := f.words;
      failure := f.Write(PackInt(|frames[k].inputs|));
      LoopStep(es, k, old(f.words), before, f.words, failure);
      if failure.Some? {
        return;
      }
      k := k + 1;
    }
    assert es[..k] == es;
    failure := None;
  }

  /** dae_parser.py:334-335. */
  method WriteInputs(f: OutputFile, frames: seq<BoneFrames>, f32: real -> Word) returns (failure: Option<Error>)
    modifies f
    ensures f.words == old(f.words) + Sequence(InputParts(frames, f32)).words
    ensures failure == Sequence(InputParts(frames, f32)).failure
  {
    ghost var es := InputParts(frames, f32);
    var k := 0;
    while k < |frames|
      invariant 0 <= k <= |frames|
      invariant f.words == old(f.words) + Sequence(es[..k]).words
      invariant Sequence(es[..k]).failure.None?
    {
      ghost var before := f.words;
      failure := f.Write(PackFloats(frames[k].inputs, |frames[k].inputs|, f32));
      LoopStep(es, k, old(f.words), before, f.words, failure);
      if failure.Some? {
        return;
      }
      k := k + 1;
    }
    assert es[..k] == es;
    failure := None;
  }

  method WriteTransform(f: OutputFile, mat: seq<real>, f32: real -> Word, sqrt: real -> real) returns (failure: Option<Error>)
    modifies f
    ensures f.words == old(f.words) + TransformEmission(mat, f32, sqrt).words
    ensures failure == TransformEmission(mat, f32, sqrt).failure
  {
    var position := ToPosition(mat);
    if position.Err? {
      return Some(position.error);
    }
    var rotation := ToQuaternion(mat, sqrt);
    if rotation.Err? {
      return Some(rotation.error);
    }
    failure := f.Write(PackFloats(position.value, 4, f32));
    if failure.Some? {
      return;
    }
    failure := f.Write(PackFloats(rotation.value, 4, f32));
  }

  /** The inner loop of dae_parser.py:339-343. */
  method WriteBoneTransforms(f: OutputFile, b: BoneFrames, f32: real -> Word, sqrt: real -> real) returns (failure: Option<Error>)
    modifies f
    ensures f.words == old(f.words) + Sequence(TransformParts(b, f32, sqrt)).words
    ensures failure == Sequence(TransformParts(b, f32, sqrt)).failure
  {
    ghost var es := TransformParts(b, f32, sqrt);
    var k := 0;
    while k < |b.outputs|
      invariant 0 <= k <= |b.outputs|
      invariant f.words == old(f.words) + Sequence(es[..k]).words
      invariant Sequence(es[..k]).failure.None?
    {
      ghost var before := f.words;
      failure := WriteTransform(f, b.outputs[k], f32, sqrt);
      LoopStep(es, k, old(f.words), before, f.words, failure);
      if failure.Some? {
        return;
      }
      k := k + 1;
    }
    assert es[..k] == es;
    failure := None;
  }

  /** dae_parser.py:338-343. */
  method WriteTransforms(f: OutputFile, frames: seq<BoneFrames>, f32: real -> Word, sqrt: real -> real) returns (failure: Option<Error>)
    modifies f
    ensures f.words == old(f.words) + Sequence(BoneTransformParts(frames, f32, sqrt)).words
    ensures failure == Sequence(BoneTransformParts(frames, f32, sqrt)).failure
  {
    ghost var es := BoneTransformParts(frames, f32, sqrt);
    var k := 0;
    while k < |frames|
      invariant 0 <= k <= |frames|
      invariant f.words == old(f.words) + Sequence(es[..k]).words
      invariant Sequence(es[..k]).failure.None?
    {
      ghost var before := f.words;
      failure := WriteBoneTransforms(f, frames[k], f32, sqrt);
      LoopStep(es, k, old(f.words), before, f.words, failure);
      if failure.Some? {
        return;
      }
      k := k + 1;
    }
    assert es[..k] == es;
    failure := None;
  }

  /** dae_parser.py:346-357: the counts start at -1, the walk fills them in
      place, then they are packed at once. */
  method WriteChildCounts(f: OutputFile, names: seq<string>, skeleton: Bone) returns (failure: Option<Error>)
    modifies f
    ensures f.words == old(f.words) + ChildCountEmission(names, skeleton).words
    ensures failure == ChildCountEmission(names, skeleton).failure
  {
    var counts := new int[|names|](_ => -1);
    assert counts[..] == Unset(|names|);
    var walked := WalkBonesCounts([skeleton], names, counts);
    if walked.Err? {
      return Some(walked.error);
    }
    failure := f.Write(PackUInts(counts[..]));
  }

  /** `walk_bones(children)` (dae_parser.py:361-368). */
  method WalkBones(f: OutputFile, d: seq<Bone>, names: seq<string>) returns (failure: Option<Error>)
    modifies f
    ensures f.words == old(f.words) + HierarchyStream(d, names).words
    ensures failure == HierarchyStream(d, names).failure
    decreases d, 1
  {
    var ids := ChildIdsOf(d, names);
    if ids.Err? {
      return Some(ids.error);
    }
    failure := f.Write(PackUInts(ids.value));
    if failure.Some? {
      return;
    }
    HierarchyStreamStart(d, names, old(f.words), f.words);
    var k := 0;
    while k < |d|
      invariant 0 <= k <= |d|
      invariant Emission(f.words, None).Then(HierarchyEach(d, names, k)) ==
                Emission(old(f.words), None).Then(HierarchyStream(d, names))
    {
      ghost var before := f.words;
      failure := WalkBones(f, d[k].children, names);
      HierarchyEachStep(d, names, k, before, f.words, failure);
      if failure.Some? {
        return;
      }
      k := k + 1;
    }
    failure := None;
  }

  /** The ids of the children, `bone_names.index` of each in turn. */
  method ChildIdsOf(d: seq<Bone>, names: seq<string>) returns (r: Result<seq<int>>)
    ensures r == ChildIds(d, names)
  {
    var ids: seq<int> := [];
    var k := 0;
    while k < |d|
      invariant 0 <= k <= |d|
      invariant ChildIds(d[..k], names) == Ok(ids)
    {
      var id := SidIndex(names, d[k].sid);
      if id.Err? {
        ChildIdsStops(d, names, k);
        return Err(NotInList);
      }
      assert d[..k + 1][..k] == d[..k];
      ids := ids + [id.value];
      k := k + 1;
    }
    assert d[..k] == d;
    r := Ok(ids);
  }

  method WriteMesh(f: OutputFile, p: Parsed, f32: real -> Word) returns (failure: Option<Error>)
    modifies f
    ensures f.words == old(f.words) + MeshSections(p, f32).words
    ensures failure == MeshSections(p, f32).failure
  {
    ghost var e := HeaderEmission(p);
    failure := WriteHeader(f, p);
    if failure.Some? {
      return;
    }
    ghost var before := f.words;
    ghost var next := Sequence(VertexParts(p.mesh.vertices, f32));
    failure := WriteVertices(f, p.mesh.vertices, f32);
    ChainStep(e, next, old(f.words), before, f.words, failure);
    if failure.Some? {
      return;
    }
    e := e.Then(next);
    before := f.words;
    failure := f.Write(PackUInts(p.mesh.indices));
    ChainStep(e, Packed(PackUInts(p.mesh.indices)), old(f.words), before, f.words, failure);
  }

  method WriteSkin(f: OutputFile, p: Parsed, f32: real -> Word, sqrt: real -> real) returns (failure: Option<Error>)
    modifies f
    ensures f.words == old(f.words) + SkinSections(p, f32, sqrt).words
    ensures failure == SkinSections(p, f32, sqrt).failure
  {
    ghost var e := Sequence(InfluenceParts(p.skin.weights, p.mesh.vertices, f32, sqrt));
    failure := WriteInfluences(f, p.skin.weights, p.mesh.vertices, f32, sqrt);
    if failure.Some? {
      return;
    }
    ghost var before := f.words;
    failure := WriteIbms(f, p.skin.ibms, f32);
    ChainStep(e, Sequence(IbmParts(p.skin.ibms, f32)), old(f.words), before, f.words, failure);
  }

  method WriteAnimation(f: OutputFile, p: Parsed, f32: real -> Word, sqrt: real -> real) returns (failure: Option<Error>)
    modifies f
    ensures f.words == old(f.words) + AnimationSections(p, f32, sqrt).words
    ensures failure == AnimationSections(p, f32, sqrt).failure
  {
    ghost var e := Sequence(FrameCountParts(p.frames));
    failure := WriteFrameCounts(f, p.frames);
    if failure.Some? {
      return;
    }
    ghost var before := f.words;
    ghost var next := Sequence(InputParts(p.frames, f32));
    failure := WriteInputs(f, p.frames, f32);
    ChainStep(e, next, old(f.words), before, f.words, failure);
    if failure.Some? {
      return;
    }
    e := e.Then(next);
    before := f.words;
    failure := WriteTransforms(f, p.frames, f32, sqrt);
    ChainStep(e, Sequence(BoneTransformParts(p.frames, f32, sqrt)), old(f.words), before, f.words, failure);
  }

  method WriteSkeleton(f: OutputFile, p: Parsed) returns (failure: Option<Error>)
    modifies f
    ensures f.words == old(f.words) + SkeletonSections(p).words
    ensures failure == SkeletonSections(p).failure
  {
    ghost var e := ChildCountEmission(p.skin.names, p.skeleton);
    failure := WriteChildCounts(f, p.skin.names, p.skeleton);
    if failure.Some? {
      return;
    }
    ghost var before := f.words;
    failure := WalkBones(f, p.skeleton.children, p.skin.names);
    ChainStep(e, HierarchyStream(p.skeleton.children, p.skin.names), old(f.words), before, f.words, failure);
  }

  /** The writes of the script, in their order (dae_parser.py:292-370). */
  method WriteAll(f: OutputFile, p: Parsed, f32: real -> Word, sqrt: real -> real) returns (failure: Option<Error>)
    modifies f
    ensures f.words == old(f.words) + Emit(p, f32, sqrt).words
    ensures failure == Emit(p, f32, sqrt).failure
  {
    ghost var e := MeshSections(p, f32);
    failure := WriteMesh(f, p, f32);
    if failure.Some? {
      return;
    }
    ghost var before := f.words;
    ghost var next := SkinSections(p, f32, sqrt);
    failure := WriteSkin(f, p, f32, sqrt);
    ChainStep(e, next, old(f.words), before, f.words, failure);
    if failure.Some? {
      return;
    }
    e := e.Then(next);
    before := f.words;
    next := AnimationSections(p, f32, sqrt);
    failure := WriteAnimation(f, p, f32, sqrt);
    ChainStep(e, next, old(f.words), before, f.words, failure);
    if failure.Some? {
      return;
    }
    e := e.Then(next);
    before := f.words;
    failure := WriteSkeleton(f, p);
    ChainStep(e, SkeletonSections(p), old(f.words), before, f.words, failure);
  }

  /** The script on a parsed document: parse everything, then open the file
      and write it. */
  method Run(root: Element, f32: real -> Word, sqrt: real -> real) returns (r: Outcome)
    ensures r == Convert(root, f32, sqrt)
  {
    var mesh := GetMeshData(root);
    if mesh.Err? {
      return NotOpened(mesh.error);
    }
    var skin := GetControllerData(root);
    if skin.Err? {
      return NotOpened(skin.error);
    }
    var frames := FrameData(root);
    if frames.Err? {
      return NotOpened(frames.error);
    }
    var skeleton := SkeletonData(root);
    if skeleton.Err? {
      return NotOpened(skeleton.error);
    }
    var f := new OutputFile();
    if mesh.value.None? {
      return Written(Emission(f.words, Some(NoneValue)));
    }
    var failure := WriteAll(f, Parsed(mesh.value.value, skin.value, frames.value, skeleton.value), f32, sqrt);
    r := Written(Emission(f.words, failure));
  }
}
