/** The output stream of the converter (dae_parser.py:281-372): the header,
    then the sections in their fixed order, each written with
    `f.write(struct.pack(...))`; an exception stops the script and leaves
    the words written so far. */
module Emitter {
  import opened Common
  import opened Py
  import opened XmlTree
  import opened Mesh
  import opened Skin
  import opened Frames
  import opened Skeleton
  import opened Influence
  import opened Stream

  /** Everything the script has parsed when it opens the output file. The
      skeleton is the one-entry dictionary `{root sid: children}` of
      `get_skeleton_data`, given by its root bone. */
  datatype Parsed = Parsed(mesh: MeshData, skin: SkinData, frames: seq<BoneFrames>, skeleton: Bone)

  /** The header (dae_parser.py:293-295). */
  function HeaderEmission(p: Parsed): Emission
  {
    Packed(PackInt(|p.mesh.vertices|))
      .Then(Packed(PackInt(|p.mesh.indices|)))
      .Then(Packed(PackInt(|p.skin.names|)))
  }

  /** The header is written exactly when the three counts fit an int; it
      is then those counts, and otherwise the pack's range error stops the
      script at the first count that does not fit. */
  lemma HeaderWritten(p: Parsed)
    ensures var e, n := HeaderEmission(p), [|p.mesh.vertices|, |p.mesh.indices|, |p.skin.names|];
      && (e.failure.None? <==> n[0] < TWO_31 && n[1] < TWO_31 && n[2] < TWO_31)
      && (e.failure.None? ==> e.words == n)
      && (e.failure.Some? ==> e.failure == Some(PackRange) && e.words == if n[0] >= TWO_31 then [] else if n[1] >= TWO_31 then n[..1] else n[..2])
  {
    var n := [|p.mesh.vertices|, |p.mesh.indices|, |p.skin.names|];
    forall i | 0 <= i < 3 && n[i] < TWO_31
      ensures UInt32(n[i]) == n[i]
    {
      UInt32OfSmall(n[i]);
    }
  }

  /** One vertex (dae_parser.py:299-301): position, normal, texture
      coordinates, as three separate writes. */
  function VertexEmission(v: Vertex, f32: real -> Word): Emission
  {
    Packed(PackFloats(v.position, 3, f32))
      .Then(Packed(PackFloats(v.normal, 3, f32)))
      .Then(Packed(PackFloats(v.texture, 2, f32)))
  }

  function VertexParts(vs: seq<Vertex>, f32: real -> Word): (r: seq<Emission>)
    ensures |r| == |vs| && forall i :: 0 <= i < |vs| ==> r[i] == VertexEmission(vs[i], f32)
  {
    seq(|vs|, i requires 0 <= i < |vs| => VertexEmission(vs[i], f32))
  }

  /** The influences of one vertex (dae_parser.py:308-323): computing them
      may raise before anything is written; then 4 ids and 4 weights. */
  function InfluenceEmission(weights: seq<Influences>, v: Vertex, f32: real -> Word, sqrt: real -> real): Emission
  {
    match VertexInfluences(weights, v.posId, sqrt)
    case Err(e) => Emission([], Some(e))
    case Ok(influences) => IdsWeightsEmission(influences.0, influences.1, f32)
  }

  /** `f.write(struct.pack("=IIII", *ids))`, then the weights as 4 floats. */
  function IdsWeightsEmission(ids: seq<int>, ws: seq<real>, f32: real -> Word): Emission
  {
    Packed(PackUInts(ids)).Then(Packed(PackFloats(ws, 4, f32)))
  }

  function InfluenceParts(weights: seq<Influences>, vs: seq<Vertex>, f32: real -> Word, sqrt: real -> real): (r: seq<Emission>)
    ensures |r| == |vs| && forall i :: 0 <= i < |vs| ==> r[i] == InfluenceEmission(weights, vs[i], f32, sqrt)
  {
    seq(|vs|, i requires 0 <= i < |vs| => InfluenceEmission(weights, vs[i], f32, sqrt))
  }

  /** One 16-float inverse bind matrix per write (dae_parser.py:326-327). */
  function IbmParts(ibms: seq<seq<real>>, f32: real -> Word): (r: seq<Emission>)
    ensures |r| == |ibms| && forall i :: 0 <= i < |ibms| ==> r[i] == Packed(PackFloats(ibms[i], 16, f32))
  {
    seq(|ibms|, i requires 0 <= i < |ibms| => Packed(PackFloats(ibms[i], 16, f32)))
  }

  /** The frame count of each bone (dae_parser.py:330-331). */
  function FrameCountParts(frames: seq<BoneFrames>): (r: seq<Emission>)
    ensures |r| == |frames| && forall i :: 0 <= i < |frames| ==> r[i] == Packed(PackInt(|frames[i].inputs|))
  {
    seq(|frames|, i requires 0 <= i < |frames| => Packed(PackInt(|frames[i].inputs|)))
  }

  /** The time stamps of each bone (dae_parser.py:334-335). */
  function InputParts(frames: seq<BoneFrames>, f32: real -> Word): (r: seq<Emission>)
    ensures |r| == |frames| && forall i :: 0 <= i < |frames| ==>
      r[i] == Packed(PackFloats(frames[i].inputs, |frames[i].inputs|, f32))
  {
    seq(|frames|, i requires 0 <= i < |frames| => Packed(PackFloats(frames[i].inputs, |frames[i].inputs|, f32)))
  }

  /** One key-frame transform (dae_parser.py:340-343): position and rotation
      are both computed before either is written. */
  function TransformEmission(mat: seq<real>, f32: real -> Word, sqrt: real -> real): Emission
  {
    match ToPosition(mat)
    case Err(e) => Emission([], Some(e))
    case Ok(position) =>
      match ToQuaternion(mat, sqrt)
      case Err(e) => Emission([], Some(e))
      case Ok(rotation) => Packed(PackFloats(position, 4, f32)).Then(Packed(PackFloats(rotation, 4, f32)))
  }

  function TransformParts(b: BoneFrames, f32: real -> Word, sqrt: real -> real): (r: seq<Emission>)
    ensures |r| == |b.outputs| && forall i :: 0 <= i < |b.outputs| ==> r[i] == TransformEmission(b.outputs[i], f32, sqrt)
  {
    seq(|b.outputs|, i requires 0 <= i < |b.outputs| => TransformEmission(b.outputs[i], f32, sqrt))
  }

  /** The transforms of every bone, bone after bone (dae_parser.py:338-343). */
  function BoneTransformParts(frames: seq<BoneFrames>, f32: real -> Word, sqrt: real -> real): (r: seq<Emission>)
    ensures |r| == |frames| && forall i :: 0 <= i < |frames| ==> r[i] == Sequence(TransformParts(frames[i], f32, sqrt))
  {
    seq(|frames|, i requires 0 <= i < |frames| => Sequence(TransformParts(frames[i], f32, sqrt)))
  }

  /** `child_counts = [-1] * len(bone_names)`. */
  function Unset(n: nat): (r: seq<int>)
    ensures |r| == n && forall i :: 0 <= i < n ==> r[i] == -1
  {
    seq(n, _ => -1)
  }

  /** The child counts (dae_parser.py:346-357): the walk over the skeleton
      (which may raise before anything is written), then one pack of all
      counts. */
  function ChildCountEmission(names: seq<string>, skeleton: Bone): Emission
  {
    match CountWrites(PreOrder([skeleton]), names, Unset(|names|))
    case Err(e) => Emission([], Some(e))
    case Ok(counts) => Packed(PackUInts(counts))
  }

  /** The mesh: header, vertices, indices (dae_parser.py:292-304). */
  function MeshSections(p: Parsed, f32: real -> Word): Emission
  {
    HeaderEmission(p)
      .Then(Sequence(VertexParts(p.mesh.vertices, f32)))
      .Then(Packed(PackUInts(p.mesh.indices)))
  }

  /** The skin: the influences of every vertex, then the inverse bind
      matrices (dae_parser.py:306-327). */
  function SkinSections(p: Parsed, f32: real -> Word, sqrt: real -> real): Emission
  {
    Sequence(InfluenceParts(p.skin.weights, p.mesh.vertices, f32, sqrt))
      .Then(Sequence(IbmParts(p.skin.ibms, f32)))
  }

  /** The animation: frame counts, time stamps, transforms
      (dae_parser.py:329-343). */
  function AnimationSections(p: Parsed, f32: real -> Word, sqrt: real -> real): Emission
  {
    Sequence(FrameCountParts(p.frames))
      .Then(Sequence(InputParts(p.frames, f32)))
      .Then(Sequence(BoneTransformParts(p.frames, f32, sqrt)))
  }

  /** The skeleton: child counts, then the hierarchy (dae_parser.py:345-370). */
  function SkeletonSections(p: Parsed): Emission
  {
    ChildCountEmission(p.skin.names, p.skeleton)
      .Then(HierarchyStream(p.skeleton.children, p.skin.names))
  }

  /** The whole file, section after section (dae_parser.py:292-370). */
  function Emit(p: Parsed, f32: real -> Word, sqrt: real -> real): Emission
  {
    MeshSections(p, f32)
      .Then(SkinSections(p, f32, sqrt))
      .Then(AnimationSections(p, f32, sqrt))
      .Then(SkeletonSections(p))
  }

  /** How a run ends: an exception while parsing (dae_parser.py:284-287)
      comes before the file is opened; after that, the file holds what was
      written. */
  datatype Outcome = NotOpened(error: Error) | Written(file: Emission)

  /** The script, for a document already parsed into a tree. A document
      without geometries gives `mesh_data = None`, which raises only at the
      first header write, after the file is opened (and left empty). */
  function Convert(root: Element, f32: real -> Word, sqrt: real -> real): (r: Outcome)
    ensures MeshSpec(root).Err? ==> r == NotOpened(MeshSpec(root).error)
    ensures MeshSpec(root) == Ok(None) && SkinSpec(root).Ok? && FrameData(root).Ok? && SkeletonData(root).Ok? ==>
      r == Written(Emission([], Some(NoneValue)))
  {
    match MeshSpec(root)
    case Err(e) => NotOpened(e)
    case Ok(mesh) =>
      match SkinSpec(root)
      case Err(e) => NotOpened(e)
      case Ok(skin) =>
        match FrameData(root)
        case Err(e) => NotOpened(e)
        case Ok(frames) =>
          match SkeletonData(root)
          case Err(e) => NotOpened(e)
          case Ok(skeleton) =>
            if mesh.None? then Written(Emission([], Some(NoneValue)))
            else Written(Emit(Parsed(mesh.value, skin, frames, skeleton), f32, sqrt))
  }

  /** A bone name that no visited bone carries keeps its -1, and packing -1
      as an unsigned int raises: such a file ends before the child counts. */
  lemma UnvisitedNameRaises(names: seq<string>, skeleton: Bone, i: nat)
    requires i < |names|
    requires CountWrites(PreOrder([skeleton]), names, Unset(|names|)).Ok?
    requires forall k :: 0 <= k < |PreOrder([skeleton])| ==> PreOrder([skeleton])[k].sid != Some(names[i])
    ensures ChildCountEmission(names, skeleton) == Emission([], Some(PackRange))
  {
    var nodes := PreOrder([skeleton]);
    CountWritesOther(nodes, names, Unset(|names|), i);
  }

  /** A count slot no write targets keeps its value. */
  lemma {:induction false} CountWritesOther(nodes: seq<Bone>, names: seq<string>, counts: seq<int>, i: nat)
    requires |counts| == |names| && i < |names|
    requires CountWrites(nodes, names, counts).Ok?
    requires forall k :: 0 <= k < |nodes| ==> nodes[k].sid != Some(names[i])
    ensures CountWrites(nodes, names, counts).value[i] == counts[i]
    decreases |nodes|
  {
    if nodes != [] {
      var j := SidIndex(names, nodes[0].sid).value;
      assert j != i;
      var rest := nodes[1..];
      assert forall k :: 0 <= k < |rest| ==> rest[k] == nodes[k + 1];
      CountWritesOther(rest, names, counts[j := |nodes[0].children|], i);
    }
  }

  /** A vertex has 3 position, 3 normal and 2 texture values. */
  predicate VertexShaped(v: Vertex)
  {
    |v.position| == 3 && |v.normal| == 3 && |v.texture| == 2
  }

  /** A vertex is written exactly when it has that shape, and then as its
      8 floats: position, normal, texture coordinates. */
  lemma VertexWritten(v: Vertex, f32: real -> Word)
    ensures VertexEmission(v, f32).failure.None? <==> VertexShaped(v)
    ensures VertexShaped(v) ==> VertexEmission(v, f32).words == FloatWords(v.position + v.normal + v.texture, f32)
  {
    FloatWordsAppend(v.position, v.normal, f32);
    FloatWordsAppend(v.position + v.normal, v.texture, f32);
  }

  /** The vertex section is written exactly when every vertex has the 8
      values; it then holds 8 words per vertex, and its i-th 8-word record
      is vertex i. */
  lemma VertexSection(vs: seq<Vertex>, f32: real -> Word)
    ensures Sequence(VertexParts(vs, f32)).failure.None? <==> forall i :: 0 <= i < |vs| ==> VertexShaped(vs[i])
    ensures Sequence(VertexParts(vs, f32)).failure.None? ==>
      var words := Sequence(VertexParts(vs, f32)).words;
      && |words| == 8 * |vs| && |Records(words, 8)| == |vs|
      && forall i :: 0 <= i < |vs| ==> Records(words, 8)[i] == FloatWords(vs[i].position + vs[i].normal + vs[i].texture, f32)
  {
    var es := VertexParts(vs, f32);
    SequenceWritten(es);
    forall i | 0 <= i < |vs| {
      VertexWritten(vs[i], f32);
    }
    if AllWritten(es) {
      SequenceRecords(es, 8);
    }
  }

  /** The influences of a vertex can be computed and its 4 bone ids fit the
      unsigned words they are packed into. */
  predicate Influenced(weights: seq<Influences>, v: Vertex, sqrt: real -> real)
  {
    VertexInfluences(weights, v.posId, sqrt).Ok? && PackUInts(VertexInfluences(weights, v.posId, sqrt).value.0).Ok?
  }

  /** A vertex's influences are written exactly when they can be computed
      and packed, and then as the 4 bone ids followed by the 4 weights. */
  lemma InfluenceWritten(weights: seq<Influences>, v: Vertex, f32: real -> Word, sqrt: real -> real)
    ensures InfluenceEmission(weights, v, f32, sqrt).failure.None? <==> Influenced(weights, v, sqrt)
    ensures Influenced(weights, v, sqrt) ==>
      var influences := VertexInfluences(weights, v.posId, sqrt).value;
      && InfluenceEmission(weights, v, f32, sqrt).words == influences.0 + FloatWords(influences.1, f32)
      && |InfluenceEmission(weights, v, f32, sqrt).words| == 8
  {
  }

  /** The influence section is written exactly when every vertex's
      influences are; its i-th 8-word record then holds vertex i's ids and
      weights. */
  lemma InfluenceSection(weights: seq<Influences>, vs: seq<Vertex>, f32: real -> Word, sqrt: real -> real)
    ensures Sequence(InfluenceParts(weights, vs, f32, sqrt)).failure.None? <==>
      forall i :: 0 <= i < |vs| ==> Influenced(weights, vs[i], sqrt)
    ensures Sequence(InfluenceParts(weights, vs, f32, sqrt)).failure.None? ==>
      var words := Sequence(InfluenceParts(weights, vs, f32, sqrt)).words;
      && |words| == 8 * |vs| && |Records(words, 8)| == |vs|
      && forall i :: 0 <= i < |vs| ==>
        Records(words, 8)[i] == VertexInfluences(weights, vs[i].posId, sqrt).value.0
                                + FloatWords(VertexInfluences(weights, vs[i].posId, sqrt).value.1, f32)
  {
    var es := InfluenceParts(weights, vs, f32, sqrt);
    SequenceWritten(es);
    forall i | 0 <= i < |vs| {
      InfluenceWritten(weights, vs[i], f32, sqrt);
    }
    if AllWritten(es) {
      SequenceRecords(es, 8);
    }
  }

  /** The matrix section is written exactly when every matrix has 16
      values; its i-th 16-word record is then matrix i. */
  lemma IbmSection(ibms: seq<seq<real>>, f32: real -> Word)
    ensures Sequence(IbmParts(ibms, f32)).failure.None? <==> forall i :: 0 <= i < |ibms| ==> |ibms[i]| == 16
    ensures Sequence(IbmParts(ibms, f32)).failure.None? ==>
      var words := Sequence(IbmParts(ibms, f32)).words;
      && |words| == 16 * |ibms| && |Records(words, 16)| == |ibms|
      && forall i :: 0 <= i < |ibms| ==> Records(words, 16)[i] == FloatWords(ibms[i], f32)
  {
    var es := IbmParts(ibms, f32);
    SequenceWritten(es);
    if AllWritten(es) {
      SequenceRecords(es, 16);
    }
  }

  /** The number of time stamps of each bone. */
  function InputCounts(frames: seq<BoneFrames>): (r: seq<int>)
    ensures |r| == |frames| && forall b :: 0 <= b < |frames| ==> r[b] == |frames[b].inputs|
  {
    seq(|frames|, b requires 0 <= b < |frames| => |frames[b].inputs|)
  }

  /** The frame-count section is written exactly when every bone's count
      fits an int, and then holds one word per bone: its count. */
  lemma FrameCountSection(frames: seq<BoneFrames>)
    ensures Sequence(FrameCountParts(frames)).failure.None? <==> forall b :: 0 <= b < |frames| ==> |frames[b].inputs| < TWO_31
    ensures Sequence(FrameCountParts(frames)).failure.None? ==> Sequence(FrameCountParts(frames)).words == InputCounts(frames)
  {
    var es := FrameCountParts(frames);
    SequenceWritten(es);
    if AllWritten(es) {
      ConcatSingletons(WordsOf(es));
    }
  }

  /** The time stamps of each bone. */
  function InputLists(frames: seq<BoneFrames>): (r: seq<seq<real>>)
    ensures |r| == |frames| && forall b :: 0 <= b < |frames| ==> r[b] == frames[b].inputs
  {
    seq(|frames|, b requires 0 <= b < |frames| => frames[b].inputs)
  }

  /** The time stamps of all bones, bone after bone. */
  function AllInputs(frames: seq<BoneFrames>): seq<real>
  {
    Concat(InputLists(frames))
  }

  /** The time-stamp section always goes through: it holds every bone's
      time stamps as floats, bone after bone. */
  lemma InputSection(frames: seq<BoneFrames>, f32: real -> Word)
    ensures Sequence(InputParts(frames, f32)).failure.None?
    ensures Sequence(InputParts(frames, f32)).words == FloatWords(AllInputs(frames), f32)
  {
    var es := InputParts(frames, f32);
    SequenceWritten(es);
    var xss := InputLists(frames);
    FloatWordsConcat(xss, f32);
    assert WordsOf(es) == seq(|xss|, i requires 0 <= i < |xss| => FloatWords(xss[i], f32));
  }

  /** A key-frame matrix has a translation and a rotation can be computed
      from it. */
  predicate Transformable(mat: seq<real>, sqrt: real -> real)
  {
    |mat| >= 12 && ToQuaternion(mat, sqrt).Ok?
  }

  /** A transform is written exactly when its matrix is transformable, and
      then as its translation (with 1.0 as fourth value) followed by its
      rotation quaternion. */
  lemma TransformWritten(mat: seq<real>, f32: real -> Word, sqrt: real -> real)
    ensures TransformEmission(mat, f32, sqrt).failure.None? <==> Transformable(mat, sqrt)
    ensures Transformable(mat, sqrt) ==>
      && TransformEmission(mat, f32, sqrt).words == FloatWords([mat[3], mat[7], mat[11], 1.0] + ToQuaternion(mat, sqrt).value, f32)
      && |TransformEmission(mat, f32, sqrt).words| == 8
  {
    if Transformable(mat, sqrt) {
      FloatWordsAppend([mat[3], mat[7], mat[11], 1.0], ToQuaternion(mat, sqrt).value, f32);
    }
  }

  /** One transform write per matrix. */
  function MatrixParts(ms: seq<seq<real>>, f32: real -> Word, sqrt: real -> real): (r: seq<Emission>)
    ensures |r| == |ms| && forall i :: 0 <= i < |ms| ==> r[i] == TransformEmission(ms[i], f32, sqrt)
  {
    seq(|ms|, i requires 0 <= i < |ms| => TransformEmission(ms[i], f32, sqrt))
  }

  /** The key-frame matrices of each bone. */
  function OutputLists(frames: seq<BoneFrames>): (r: seq<seq<seq<real>>>)
    ensures |r| == |frames| && forall b :: 0 <= b < |frames| ==> r[b] == frames[b].outputs
  {
    seq(|frames|, b requires 0 <= b < |frames| => frames[b].outputs)
  }

  /** The key-frame matrices of all bones, bone after bone. */
  function AllOutputs(frames: seq<BoneFrames>): seq<seq<real>>
  {
    Concat(OutputLists(frames))
  }

  lemma MatrixPartsAppend(xs: seq<seq<real>>, ys: seq<seq<real>>, f32: real -> Word, sqrt: real -> real)
    ensures MatrixParts(xs + ys, f32, sqrt) == MatrixParts(xs, f32, sqrt) + MatrixParts(ys, f32, sqrt)
  {
  }

  /** The transforms of bone after bone are the writes for all key-frame
      matrices in one run. */
  lemma {:induction false} TransformPartsConcat(frames: seq<BoneFrames>, f32: real -> Word, sqrt: real -> real)
    ensures Concat(seq(|frames|, b requires 0 <= b < |frames| => TransformParts(frames[b], f32, sqrt)))
         == MatrixParts(AllOutputs(frames), f32, sqrt)
    decreases |frames|
  {
    if frames != [] {
      var m := |frames| - 1;
      var parts := seq(|frames|, b requires 0 <= b < |frames| => TransformParts(frames[b], f32, sqrt));
      var outs := OutputLists(frames);
      assert parts[..m] == seq(m, b requires 0 <= b < m => TransformParts(frames[..m][b], f32, sqrt));
      assert outs[..m] == OutputLists(frames[..m]);
      TransformPartsConcat(frames[..m], f32, sqrt);
      var pre := AllOutputs(frames[..m]);
      assert Concat(parts) == MatrixParts(pre, f32, sqrt) + parts[m];
      assert AllOutputs(frames) == pre + frames[m].outputs;
      assert parts[m] == MatrixParts(frames[m].outputs, f32, sqrt);
      MatrixPartsAppend(pre, frames[m].outputs, f32, sqrt);
    }
  }

  /** The transform section is written exactly when every key-frame matrix
      is transformable; its j-th 8-word record is then the transform of
      the j-th matrix, counting bone after bone. */
  lemma BoneTransformSection(frames: seq<BoneFrames>, f32: real -> Word, sqrt: real -> real)
    ensures Sequence(BoneTransformParts(frames, f32, sqrt)).failure.None? <==>
      forall j :: 0 <= j < |AllOutputs(frames)| ==> Transformable(AllOutputs(frames)[j], sqrt)
    ensures Sequence(BoneTransformParts(frames, f32, sqrt)).failure.None? ==>
      var words, ms := Sequence(BoneTransformParts(frames, f32, sqrt)).words, AllOutputs(frames);
      && |words| == 8 * |ms| && |Records(words, 8)| == |ms|
      && forall j :: 0 <= j < |ms| ==> Records(words, 8)[j] == TransformEmission(ms[j], f32, sqrt).words
  {
    var ess := seq(|frames|, b requires 0 <= b < |frames| => TransformParts(frames[b], f32, sqrt));
    assert BoneTransformParts(frames, f32, sqrt) == seq(|ess|, i requires 0 <= i < |ess| => Sequence(ess[i]));
    SequenceFlattens(ess);
    TransformPartsConcat(frames, f32, sqrt);
    var es := MatrixParts(AllOutputs(frames), f32, sqrt);
    SequenceWritten(es);
    forall j | 0 <= j < |es| {
      TransformWritten(AllOutputs(frames)[j], f32, sqrt);
    }
    if AllWritten(es) {
      SequenceRecords(es, 8);
    }
  }
}
