/** The converter's file read back by the engine: when the script
    (dae_parser.py:292-370) runs to the end, `animatedLoad`
    (src/res.c:68-132) returns the counts, records and tables the script
    wrote, and the child table describes the skeleton the script walked. */
module RoundTrip {
  import opened Common
  import opened Py
  import opened Mesh
  import opened Skin
  import opened Frames
  import opened Skeleton
  import opened Stream
  import opened Influence
  import opened Emitter
  import Reader

  /** Bone k of the name list is the k-th bone the walks visit, the root
      first: the engine takes bone 0 as the root and finds each bone's
      children through its slice of the hierarchy. */
  predicate PreOrderNumbered(names: seq<string>, root: Bone)
  {
    && |PreOrder([root])| == |names|
    && forall k :: 0 <= k < |names| ==>
      SidIndex(names, PreOrder([root])[k].sid).Ok? && SidIndex(names, PreOrder([root])[k].sid).value == k
  }

  /** What the engine should load from the file for p: the header counts,
      one 8-word record per vertex and per vertex's influences, one 16-word
      record per matrix, the frame table and the child table. */
  function LoadedOf(p: Parsed, f32: real -> Word, sqrt: real -> real): Reader.Animated
  {
    var vs := p.mesh.vertices;
    var f, c := FrameTable(p.frames, f32, sqrt), ChildTable(p.skin.names, p.skeleton);
    Reader.Animated(
      Reader.Model(|vs|, |p.mesh.indices|, WordsOf(VertexParts(vs, f32)), Packed(PackUInts(p.mesh.indices)).words),
      WordsOf(InfluenceParts(p.skin.weights, vs, f32, sqrt)),
      Reader.Armature(|p.skin.names|, WordsOf(IbmParts(p.skin.ibms, f32)),
                      f.counts, f.offsets, f.timeStamps, f.transforms, c.counts, c.offsets, c.hierarchy))
  }

  /** What the round trip needs beyond a file that was written to the end:
      as many matrices and key-frame lists as bone names, as many
      transforms as time stamps per bone, a total number of time stamps
      that fits the engine's `int`, and names in the order the walks visit
      the bones. */
  predicate Loadable(p: Parsed, f32: real -> Word, sqrt: real -> real)
  {
    && Emit(p, f32, sqrt).failure.None?
    && |p.skin.ibms| == |p.skin.names| && |p.frames| == |p.skin.names|
    && (forall b :: 0 <= b < |p.frames| ==> |p.frames[b].outputs| == |p.frames[b].inputs|)
    && Sum(InputCounts(p.frames)) < TWO_31
    && PreOrderNumbered(p.skin.names, p.skeleton)
  }

  /** A file written to the end has written every section. */
  lemma EmitParts(p: Parsed, f32: real -> Word, sqrt: real -> real)
    requires Emit(p, f32, sqrt).failure.None?
    ensures HeaderEmission(p).failure.None?
    ensures Sequence(VertexParts(p.mesh.vertices, f32)).failure.None?
    ensures PackUInts(p.mesh.indices).Ok?
    ensures Sequence(InfluenceParts(p.skin.weights, p.mesh.vertices, f32, sqrt)).failure.None?
    ensures Sequence(IbmParts(p.skin.ibms, f32)).failure.None?
    ensures Sequence(FrameCountParts(p.frames)).failure.None?
    ensures Sequence(BoneTransformParts(p.frames, f32, sqrt)).failure.None?
    ensures ChildCountEmission(p.skin.names, p.skeleton).failure.None?
    ensures HierarchyStream(p.skeleton.children, p.skin.names).failure.None?
  {
    EmitWords(p, f32, sqrt);
  }

  /** A file written to the end holds the sections one after the other. */
  lemma EmitWords(p: Parsed, f32: real -> Word, sqrt: real -> real)
    requires Emit(p, f32, sqrt).failure.None?
    ensures HeaderEmission(p).failure.None? && Sequence(VertexParts(p.mesh.vertices, f32)).failure.None?
    ensures PackUInts(p.mesh.indices).Ok?
    ensures Sequence(InfluenceParts(p.skin.weights, p.mesh.vertices, f32, sqrt)).failure.None?
    ensures Sequence(IbmParts(p.skin.ibms, f32)).failure.None? && Sequence(FrameCountParts(p.frames)).failure.None?
    ensures Sequence(BoneTransformParts(p.frames, f32, sqrt)).failure.None?
    ensures ChildCountEmission(p.skin.names, p.skeleton).failure.None?
    ensures HierarchyStream(p.skeleton.children, p.skin.names).failure.None?
    ensures Emit(p, f32, sqrt).words ==
      HeaderEmission(p).words +
      ((Sequence(VertexParts(p.mesh.vertices, f32)).words + (Packed(PackUInts(p.mesh.indices)).words +
        (Sequence(InfluenceParts(p.skin.weights, p.mesh.vertices, f32, sqrt)).words + Sequence(IbmParts(p.skin.ibms, f32)).words))) +
       ((Sequence(FrameCountParts(p.frames)).words + (Sequence(InputParts(p.frames, f32)).words +
         Sequence(BoneTransformParts(p.frames, f32, sqrt)).words)) +
        (ChildCountEmission(p.skin.names, p.skeleton).words + HierarchyStream(p.skeleton.children, p.skin.names).words)))
  {
    var h, v, ix := HeaderEmission(p), Sequence(VertexParts(p.mesh.vertices, f32)), Packed(PackUInts(p.mesh.indices));
    var w, m := Sequence(InfluenceParts(p.skin.weights, p.mesh.vertices, f32, sqrt)), Sequence(IbmParts(p.skin.ibms, f32));
    var fc, ts, tf := Sequence(FrameCountParts(p.frames)), Sequence(InputParts(p.frames, f32)), Sequence(BoneTransformParts(p.frames, f32, sqrt));
    var cc, hs := ChildCountEmission(p.skin.names, p.skeleton), HierarchyStream(p.skeleton.children, p.skin.names);
    var mesh, skin := MeshSections(p, f32), SkinSections(p, f32, sqrt);
    var anim, skel := AnimationSections(p, f32, sqrt), SkeletonSections(p);
    assert Emit(p, f32, sqrt) == mesh.Then(skin).Then(anim).Then(skel);
    ThenWritten(mesh.Then(skin).Then(anim), skel);
    ThenWritten(mesh.Then(skin), anim);
    ThenWritten(mesh, skin);
    assert mesh == h.Then(v).Then(ix);
    ThenWritten(h.Then(v), ix);
    ThenWritten(h, v);
    assert skin == w.Then(m);
    ThenWritten(w, m);
    assert anim == fc.Then(ts).Then(tf);
    ThenWritten(fc.Then(ts), tf);
    ThenWritten(fc, ts);
    assert skel == cc.Then(hs);
    ThenWritten(cc, hs);
    Regroup(h.words, v.words, ix.words, w.words, m.words, fc.words, ts.words, tf.words, cc.words, hs.words);
  }

  lemma Regroup<T>(h: seq<T>, v: seq<T>, ix: seq<T>, w: seq<T>, m: seq<T>, fc: seq<T>, ts: seq<T>, tf: seq<T>, cc: seq<T>, hs: seq<T>)
    ensures h + v + ix + (w + m) + (fc + ts + tf) + (cc + hs) ==
      h + ((v + (ix + (w + m))) + ((fc + (ts + tf)) + (cc + hs)))
  {
  }

  /** The count table of a file written to the end: slot k holds the
      number of children of the k-th visited bone. */
  lemma ChildCountTable(names: seq<string>, root: Bone)
    requires PreOrderNumbered(names, root)
    requires ChildCountEmission(names, root).failure.None?
    ensures ChildCountEmission(names, root).words == ChildCounts(PreOrder([root]))
  {
    var po := PreOrder([root]);
    CountWritesDistinct(po, names, Unset(|names|));
    var counts := CountWrites(po, names, Unset(|names|)).value;
    assert counts == ChildCounts(po);
  }

  /** Every bone the walks visit has its children in the name list. */
  lemma ChildIdsNamed(names: seq<string>, root: Bone)
    requires PreOrderNumbered(names, root)
    ensures ChildIdsOk(PreOrder([root]), names)
  {
    var po := PreOrder([root]);
    PreOrderCloses([root]);
    forall k | 0 <= k < |po|
      ensures ChildIds(po[k].children, names).Ok?
    {
      forall j | 0 <= j < |po[k].children|
        ensures SidIndex(names, po[k].children[j].sid).Ok?
      {
        var c := po[k].children[j];
        var i :| 0 <= i < |po| && po[i] == c;
      }
    }
  }

  /** The hierarchy of a file written to the end: the child-id lists of
      the bones in visiting order. */
  lemma HierarchyTable(names: seq<string>, root: Bone)
    requires PreOrderNumbered(names, root) && |names| < TWO_31
    ensures ChildIdsOk(PreOrder([root]), names)
    ensures HierarchyStream(root.children, names).failure.None?
    ensures HierarchyStream(root.children, names).words == Concat(ChildLists(PreOrder([root]), names))
  {
    var po, pc := PreOrder([root]), PreOrder(root.children);
    assert [root][1..] == [] && [root][0] == root;
    assert PreOrder([root][1..]) == [];
    assert po == [root] + pc;
    ChildIdsNamed(names, root);
    ChildListsAppend([root], pc, names);
    HierarchyIsPreOrder(root.children, names);
    var ids := ChildIds(root.children, names).value;
    assert ChildLists([root], names) == [ids];
    ConcatCons(ids, ChildLists(pc, names));
  }

  /** The list of child ids of bone k is as long as bone k's count, and
      there are as many ids as bones other than the root. */
  lemma HierarchyLength(names: seq<string>, root: Bone)
    requires PreOrderNumbered(names, root)
    ensures ChildIdsOk(PreOrder([root]), names)
    ensures Lengths(ChildLists(PreOrder([root]), names)) == ChildCounts(PreOrder([root]))
    ensures Sum(ChildCounts(PreOrder([root]))) == |names| - 1
  {
    ChildIdsNamed(names, root);
    PreOrderChildTotal([root]);
  }

  /** The converter's file is read back as the model it describes:
      `animatedLoad` accepts exactly the words the script wrote and
      returns `LoadedOf(p)`. */
  lemma EmitRoundTrip(p: Parsed, f32: real -> Word, sqrt: real -> real)
    requires Loadable(p, f32, sqrt)
    ensures Reader.WellFormed(LoadedOf(p, f32, sqrt))
    ensures Emit(p, f32, sqrt).words == Reader.AnimatedWords(LoadedOf(p, f32, sqrt))
    ensures Reader.DecodeAnimated(Emit(p, f32, sqrt).words) == Reader.Loaded(LoadedOf(p, f32, sqrt))
  {
    var a := LoadedOf(p, f32, sqrt);
    LoadedFits(p, f32, sqrt);
    LoadedWords(p, f32, sqrt);
    Reader.AnimatedRoundTrip(a);
  }

  /** The converter's file opens with the vertex, index and bone counts and
      holds 16 words per vertex, one per index, 19 per bone less one (the
      root has no parent entry) and 9 per key frame. */
  lemma EmitLayout(p: Parsed, f32: real -> Word, sqrt: real -> real)
    requires Loadable(p, f32, sqrt)
    ensures var w := Emit(p, f32, sqrt).words;
      && |w| == 2 + 16 * |p.mesh.vertices| + |p.mesh.indices| + 19 * |p.skin.names| + 9 * Sum(InputCounts(p.frames))
      && w[..3] == [|p.mesh.vertices|, |p.mesh.indices|, |p.skin.names|]
  {
    EmitRoundTrip(p, f32, sqrt);
    EmitParts(p, f32, sqrt);
    Reader.AnimatedWordsLayout(LoadedOf(p, f32, sqrt));
    FrameCountTotal(p.frames, f32, sqrt);
    ChildCountTotal(p.skin.names, p.skeleton);
  }

  /** The frame counts read back add up to the number of key frames. */
  lemma FrameCountTotal(frames: seq<BoneFrames>, f32: real -> Word, sqrt: real -> real)
    requires Sequence(FrameCountParts(frames)).failure.None?
    requires Sequence(BoneTransformParts(frames, f32, sqrt)).failure.None?
    requires forall b :: 0 <= b < |frames| ==> |frames[b].outputs| == |frames[b].inputs|
    requires Sum(InputCounts(frames)) < TWO_31
    ensures Int32(Sum(FrameTable(frames, f32, sqrt).counts)) == Sum(InputCounts(frames))
  {
    FrameContents(frames, f32, sqrt);
    SumNonNegative(InputCounts(frames));
    Int32OfSmall(Sum(InputCounts(frames)));
  }

  /** The child counts read back add up to one less than the number of
      bones. */
  lemma ChildCountTotal(names: seq<string>, root: Bone)
    requires PreOrderNumbered(names, root) && |names| < TWO_31
    requires ChildCountEmission(names, root).failure.None?
    ensures Int32(Sum(ChildTable(names, root).counts)) == |names| - 1
  {
    ChildCountTable(names, root);
    HierarchyLength(names, root);
    Int32OfSmall(|names| - 1);
  }

  /** The model of a loadable file is one `animatedLoad` can return. */
  lemma LoadedFits(p: Parsed, f32: real -> Word, sqrt: real -> real)
    requires Loadable(p, f32, sqrt)
    ensures Reader.WellFormed(LoadedOf(p, f32, sqrt))
  {
    var a := LoadedOf(p, f32, sqrt);
    EmitParts(p, f32, sqrt);
    SkinnedFits(p, f32, sqrt);
    FramesFits(p.frames, f32, sqrt);
    assert Reader.FramesOf(a.armature) == FrameTable(p.frames, f32, sqrt);
    ChildrenFits(p.skin.names, p.skeleton);
    assert Reader.ChildrenOf(a.armature) == ChildTable(p.skin.names, p.skeleton);
  }

  lemma SkinnedFits(p: Parsed, f32: real -> Word, sqrt: real -> real)
    requires Emit(p, f32, sqrt).failure.None? && |p.skin.ibms| == |p.skin.names|
    ensures var a := LoadedOf(p, f32, sqrt);
      a.model.vertexCount < TWO_31 && a.model.indexCount < TWO_31 && a.armature.boneCount < TWO_31
      && Reader.SkinnedFit(Reader.SkinnedOf(a), Reader.HeaderOf(a))
  {
    var a := LoadedOf(p, f32, sqrt);
    var vs := p.mesh.vertices;
    EmitParts(p, f32, sqrt);
    VertexSection(vs, f32);
    InfluenceSection(p.skin.weights, vs, f32, sqrt);
    forall i | 0 <= i < |vs|
      ensures |a.model.vertices[i]| == 8 && |a.vertexWeights[i]| == 8
    {
      VertexWritten(vs[i], f32);
      InfluenceWritten(p.skin.weights, vs[i], f32, sqrt);
    }
    IbmSection(p.skin.ibms, f32);
  }

  /** The frame table the engine reads from the animation sections. */
  function FrameTable(frames: seq<BoneFrames>, f32: real -> Word, sqrt: real -> real): Reader.Frames
  {
    var counts := Sequence(FrameCountParts(frames)).words;
    Reader.Frames(counts, Reader.Offsets(counts), Sequence(InputParts(frames, f32)).words,
                  Records(Sequence(BoneTransformParts(frames, f32, sqrt)).words, 8))
  }

  lemma FramesFits(frames: seq<BoneFrames>, f32: real -> Word, sqrt: real -> real)
    requires Sequence(FrameCountParts(frames)).failure.None?
    requires Sequence(BoneTransformParts(frames, f32, sqrt)).failure.None?
    requires forall b :: 0 <= b < |frames| ==> |frames[b].outputs| == |frames[b].inputs|
    requires Sum(InputCounts(frames)) < TWO_31
    ensures Reader.FramesFit(FrameTable(frames, f32, sqrt), |frames|)
  {
    var f, total := FrameTable(frames, f32, sqrt), Sum(InputCounts(frames));
    FrameCountSection(frames);
    InputSection(frames, f32);
    BoneTransformSection(frames, f32, sqrt);
    FrameTotals(frames);
    SumNonNegative(InputCounts(frames));
    assert Sum(f.counts) == total;
    Int32OfSmall(total);
    assert |f.timeStamps| == total;
    assert |f.transforms| == total;
  }

  /** The child table the engine reads from the skeleton sections. */
  function ChildTable(names: seq<string>, root: Bone): Reader.Children
  {
    var counts := ChildCountEmission(names, root).words;
    Reader.Children(counts, Reader.Offsets(counts), HierarchyStream(root.children, names).words)
  }

  lemma ChildrenFits(names: seq<string>, root: Bone)
    requires PreOrderNumbered(names, root) && |names| < TWO_31
    requires ChildCountEmission(names, root).failure.None?
    ensures Reader.ChildrenFit(ChildTable(names, root), |names|)
  {
    var c, po := ChildTable(names, root), PreOrder([root]);
    ChildCountTable(names, root);
    HierarchyTable(names, root);
    HierarchyLength(names, root);
    ConcatLength(ChildLists(po, names));
    assert |c.hierarchy| == |names| - 1;
    assert Sum(c.counts) == |names| - 1;
    Int32OfSmall(|names| - 1);
  }

  /** The time stamps and the key-frame matrices of all bones number the
      total of the bones' counts. */
  lemma FrameTotals(frames: seq<BoneFrames>)
    requires forall b :: 0 <= b < |frames| ==> |frames[b].outputs| == |frames[b].inputs|
    ensures |AllInputs(frames)| == |AllOutputs(frames)| == Sum(InputCounts(frames))
  {
    var ins, outs := InputLists(frames), OutputLists(frames);
    ConcatLength(ins);
    ConcatLength(outs);
    assert Lengths(ins) == InputCounts(frames);
    assert Lengths(outs) == InputCounts(frames);
  }

  /** The words of a loadable file are those of its model. */
  lemma LoadedWords(p: Parsed, f32: real -> Word, sqrt: real -> real)
    requires Emit(p, f32, sqrt).failure.None?
    ensures Emit(p, f32, sqrt).words == Reader.AnimatedWords(LoadedOf(p, f32, sqrt))
  {
    var a := LoadedOf(p, f32, sqrt);
    EmitWords(p, f32, sqrt);
    assert Reader.HeaderWords(Reader.HeaderOf(a)) == HeaderEmission(p).words;
    SkinnedWordsMatch(p, f32, sqrt);
    FramesWordsMatch(p.frames, f32, sqrt);
    assert Reader.FramesOf(a.armature) == FrameTable(p.frames, f32, sqrt);
    assert Reader.ChildrenOf(a.armature) == ChildTable(p.skin.names, p.skeleton);
  }

  lemma SkinnedWordsMatch(p: Parsed, f32: real -> Word, sqrt: real -> real)
    requires Sequence(VertexParts(p.mesh.vertices, f32)).failure.None?
    requires Sequence(InfluenceParts(p.skin.weights, p.mesh.vertices, f32, sqrt)).failure.None?
    requires Sequence(IbmParts(p.skin.ibms, f32)).failure.None?
    ensures Reader.SkinnedWords(Reader.SkinnedOf(LoadedOf(p, f32, sqrt))) ==
      Sequence(VertexParts(p.mesh.vertices, f32)).words + (Packed(PackUInts(p.mesh.indices)).words +
      (Sequence(InfluenceParts(p.skin.weights, p.mesh.vertices, f32, sqrt)).words + Sequence(IbmParts(p.skin.ibms, f32)).words))
  {
    SequenceWritten(VertexParts(p.mesh.vertices, f32));
    SequenceWritten(InfluenceParts(p.skin.weights, p.mesh.vertices, f32, sqrt));
    SequenceWritten(IbmParts(p.skin.ibms, f32));
  }

  lemma FramesWordsMatch(frames: seq<BoneFrames>, f32: real -> Word, sqrt: real -> real)
    requires Sequence(BoneTransformParts(frames, f32, sqrt)).failure.None?
    ensures Reader.FramesWords(FrameTable(frames, f32, sqrt)) ==
      Sequence(FrameCountParts(frames)).words + (Sequence(InputParts(frames, f32)).words +
      Sequence(BoneTransformParts(frames, f32, sqrt)).words)
  {
    BoneTransformSection(frames, f32, sqrt);
    RecordsOfFlat(Sequence(BoneTransformParts(frames, f32, sqrt)).words, 8, |AllOutputs(frames)|);
  }

  /** Reading a flat array at a running offset: with the parts' lengths as
      counts, element j of part k sits at offset k plus j. */
  lemma OffsetIndex<T>(ss: seq<seq<T>>, counts: seq<Word>, k: nat, j: nat)
    requires Lengths(ss) == counts && Sum(counts) < TWO_31
    requires k < |ss| && j < |ss[k]|
    ensures Reader.Offsets(counts)[k] + j < |Concat(ss)|
    ensures Concat(ss)[Reader.Offsets(counts)[k] + j] == ss[k][j]
  {
    var before := Sum(counts[..k]);
    OffsetIsSum(counts, k);
    assert Lengths(ss)[..k] == counts[..k];
    ConcatSlice(ss, k);
    assert Concat(ss)[before..before + |ss[k]|][j] == ss[k][j];
  }

  /** With a total below 2^31, the k-th running offset is the sum of the
      counts before k, with no wrap-around. */
  lemma OffsetIsSum(counts: seq<Word>, k: nat)
    requires Sum(counts) < TWO_31 && k < |counts|
    ensures Reader.Offsets(counts)[k] == Sum(counts[..k])
  {
    assert counts == counts[..k] + counts[k..];
    SumAppend(counts[..k], counts[k..]);
    SumNonNegative(counts[..k]);
    SumNonNegative(counts[k..]);
    UInt32OfSmall(Sum(counts[..k]));
  }

  /** What the engine finds in the mesh and skin of a file whose vertex,
      influence and matrix sections were written: vertex i's 8 floats,
      vertex i's 4 bone ids and 4 weights, and bone b's inverse bind
      matrix. */
  lemma SkinContents(p: Parsed, f32: real -> Word, sqrt: real -> real)
    requires Sequence(VertexParts(p.mesh.vertices, f32)).failure.None?
    requires Sequence(InfluenceParts(p.skin.weights, p.mesh.vertices, f32, sqrt)).failure.None?
    requires Sequence(IbmParts(p.skin.ibms, f32)).failure.None?
    ensures var a, vs := LoadedOf(p, f32, sqrt), p.mesh.vertices;
      && |a.model.vertices| == |a.vertexWeights| == |vs| && |a.armature.ibms| == |p.skin.ibms|
      && (forall i :: 0 <= i < |vs| ==> a.model.vertices[i] == FloatWords(vs[i].position + vs[i].normal + vs[i].texture, f32))
      && (forall i :: 0 <= i < |vs| ==>
            && VertexInfluences(p.skin.weights, vs[i].posId, sqrt).Ok?
            && a.vertexWeights[i] == VertexInfluences(p.skin.weights, vs[i].posId, sqrt).value.0
                                     + FloatWords(VertexInfluences(p.skin.weights, vs[i].posId, sqrt).value.1, f32))
      && (forall b :: 0 <= b < |p.skin.ibms| ==> a.armature.ibms[b] == FloatWords(p.skin.ibms[b], f32))
  {
    VertexContents(p.mesh.vertices, f32);
    InfluenceContents(p.skin.weights, p.mesh.vertices, f32, sqrt);
    IbmContents(p.skin.ibms, f32);
  }

  lemma VertexContents(vs: seq<Vertex>, f32: real -> Word)
    requires Sequence(VertexParts(vs, f32)).failure.None?
    ensures forall i :: 0 <= i < |vs| ==>
      WordsOf(VertexParts(vs, f32))[i] == FloatWords(vs[i].position + vs[i].normal + vs[i].texture, f32)
  {
    SequenceWritten(VertexParts(vs, f32));
    forall i | 0 <= i < |vs|
      ensures VertexEmission(vs[i], f32).words == FloatWords(vs[i].position + vs[i].normal + vs[i].texture, f32)
    {
      VertexWritten(vs[i], f32);
    }
  }

  lemma InfluenceContents(weights: seq<Influences>, vs: seq<Vertex>, f32: real -> Word, sqrt: real -> real)
    requires Sequence(InfluenceParts(weights, vs, f32, sqrt)).failure.None?
    ensures forall i :: 0 <= i < |vs| ==>
      && VertexInfluences(weights, vs[i].posId, sqrt).Ok?
      && WordsOf(InfluenceParts(weights, vs, f32, sqrt))[i] == VertexInfluences(weights, vs[i].posId, sqrt).value.0
                                                            + FloatWords(VertexInfluences(weights, vs[i].posId, sqrt).value.1, f32)
  {
    SequenceWritten(InfluenceParts(weights, vs, f32, sqrt));
    forall i | 0 <= i < |vs|
      ensures VertexInfluences(weights, vs[i].posId, sqrt).Ok?
      ensures InfluenceEmission(weights, vs[i], f32, sqrt).words ==
        VertexInfluences(weights, vs[i].posId, sqrt).value.0 + FloatWords(VertexInfluences(weights, vs[i].posId, sqrt).value.1, f32)
    {
      InfluenceWritten(weights, vs[i], f32, sqrt);
    }
  }

  lemma IbmContents(ibms: seq<seq<real>>, f32: real -> Word)
    requires Sequence(IbmParts(ibms, f32)).failure.None?
    ensures forall b :: 0 <= b < |ibms| ==> WordsOf(IbmParts(ibms, f32))[b] == FloatWords(ibms[b], f32)
  {
    SequenceWritten(IbmParts(ibms, f32));
  }

  /** What the engine finds in the frame table of a file whose animation
      sections were written: bone b's count is its number of time stamps,
      and at bone b's offset plus t it finds bone b's t-th time stamp and
      the translation and rotation of bone b's t-th key-frame matrix. */
  lemma FrameContents(frames: seq<BoneFrames>, f32: real -> Word, sqrt: real -> real)
    requires Sequence(FrameCountParts(frames)).failure.None?
    requires Sequence(BoneTransformParts(frames, f32, sqrt)).failure.None?
    requires forall b :: 0 <= b < |frames| ==> |frames[b].outputs| == |frames[b].inputs|
    requires Sum(InputCounts(frames)) < TWO_31
    ensures FrameTable(frames, f32, sqrt).counts == InputCounts(frames)
    ensures FramesRead(FrameTable(frames, f32, sqrt), frames, f32, sqrt)
  {
    var f := FrameTable(frames, f32, sqrt);
    FrameCountSection(frames);
    InputSection(frames, f32);
    BoneTransformSection(frames, f32, sqrt);
    FramesFromTables(frames, f32, sqrt, f.counts, f.offsets, f.timeStamps, f.transforms);
  }

  lemma FramesFromTables(frames: seq<BoneFrames>, f32: real -> Word, sqrt: real -> real,
                         counts: seq<Word>, offsets: seq<Word>, stamps: seq<Word>, records: seq<seq<Word>>)
    requires forall b :: 0 <= b < |frames| ==> |frames[b].outputs| == |frames[b].inputs|
    requires counts == InputCounts(frames) && Sum(counts) < TWO_31 && offsets == Reader.Offsets(counts)
    requires stamps == FloatWords(AllInputs(frames), f32)
    requires |records| == |AllOutputs(frames)|
    requires forall j :: 0 <= j < |AllOutputs(frames)| ==> Transformable(AllOutputs(frames)[j], sqrt)
    requires forall j :: 0 <= j < |AllOutputs(frames)| ==> records[j] == TransformEmission(AllOutputs(frames)[j], f32, sqrt).words
    ensures FramesRead(Reader.Frames(counts, offsets, stamps, records), frames, f32, sqrt)
  {
    var f := Reader.Frames(counts, offsets, stamps, records);
    forall b, t | 0 <= b < |frames| && 0 <= t < |frames[b].inputs| && t < |frames[b].outputs|
      ensures FrameReadAt(f, frames, f32, sqrt, b, t)
    {
      StampAt(frames, f32, counts, stamps, b, t);
      TransformAt(frames, f32, sqrt, counts, records, b, t);
    }
  }

  /** The words of the transform of a transformable matrix: its
      translation, 1.0, and its rotation quaternion. */
  function TransformWords(mat: seq<real>, f32: real -> Word, sqrt: real -> real): seq<Word>
    requires Transformable(mat, sqrt)
  {
    FloatWords([mat[3], mat[7], mat[11], 1.0] + ToQuaternion(mat, sqrt).value, f32)
  }

  /** At bone b's offset plus t, the frame table holds bone b's t-th time
      stamp and the transform of bone b's t-th key-frame matrix. */
  predicate FramesRead(f: Reader.Frames, frames: seq<BoneFrames>, f32: real -> Word, sqrt: real -> real)
  {
    && |f.offsets| == |frames|
    && forall b, t :: 0 <= b < |frames| && 0 <= t < |frames[b].inputs| && t < |frames[b].outputs| ==>
      FrameReadAt(f, frames, f32, sqrt, b, t)
  }

  /** Bone b's t-th key frame: its time stamp and its transform words sit at
      bone b's offset plus t. */
  predicate FrameReadAt(f: Reader.Frames, frames: seq<BoneFrames>, f32: real -> Word, sqrt: real -> real, b: nat, t: nat)
    requires b < |f.offsets| && b < |frames| && t < |frames[b].inputs| && t < |frames[b].outputs|
  {
    && f.offsets[b] + t < |f.timeStamps| && f.offsets[b] + t < |f.transforms|
    && f.timeStamps[f.offsets[b] + t] == f32(frames[b].inputs[t])
    && Transformable(frames[b].outputs[t], sqrt)
    && f.transforms[f.offsets[b] + t] == TransformWords(frames[b].outputs[t], f32, sqrt)
  }

  /** Bone b's t-th time stamp is read at bone b's offset plus t. */
  lemma StampAt(frames: seq<BoneFrames>, f32: real -> Word, counts: seq<Word>, stamps: seq<Word>, b: nat, t: nat)
    requires counts == InputCounts(frames) && Sum(counts) < TWO_31
    requires stamps == FloatWords(AllInputs(frames), f32)
    requires b < |frames| && t < |frames[b].inputs|
    ensures Reader.Offsets(counts)[b] + t < |stamps|
    ensures stamps[Reader.Offsets(counts)[b] + t] == f32(frames[b].inputs[t])
  {
    assert Lengths(InputLists(frames)) == counts;
    OffsetIndex(InputLists(frames), counts, b, t);
  }

  /** Bone b's t-th transform is read at bone b's offset plus t. */
  lemma TransformAt(frames: seq<BoneFrames>, f32: real -> Word, sqrt: real -> real,
                    counts: seq<Word>, records: seq<seq<Word>>, b: nat, t: nat)
    requires counts == InputCounts(frames) && Sum(counts) < TWO_31
    requires forall b :: 0 <= b < |frames| ==> |frames[b].outputs| == |frames[b].inputs|
    requires |records| == |AllOutputs(frames)|
    requires forall j :: 0 <= j < |AllOutputs(frames)| ==> Transformable(AllOutputs(frames)[j], sqrt)
    requires forall j :: 0 <= j < |AllOutputs(frames)| ==> records[j] == TransformEmission(AllOutputs(frames)[j], f32, sqrt).words
    requires b < |frames| && t < |frames[b].inputs|
    ensures Reader.Offsets(counts)[b] + t < |records|
    ensures Transformable(frames[b].outputs[t], sqrt)
    ensures records[Reader.Offsets(counts)[b] + t] == TransformWords(frames[b].outputs[t], f32, sqrt)
  {
    assert Lengths(OutputLists(frames)) == counts;
    OffsetIndex(OutputLists(frames), counts, b, t);
    TransformWritten(frames[b].outputs[t], f32, sqrt);
  }

  /** What the engine finds in the child table of a file whose child
      counts were written: bone k's count is its number of children, and
      the j-th id in bone k's slice of the hierarchy is the number of bone
      k's j-th child, so the engine walks the skeleton the script walked. */
  lemma ChildContents(names: seq<string>, root: Bone)
    requires PreOrderNumbered(names, root) && |names| < TWO_31
    requires ChildCountEmission(names, root).failure.None?
    ensures ChildTable(names, root).counts == ChildCounts(PreOrder([root]))
    ensures ChildrenNumbered(ChildTable(names, root), PreOrder([root]))
  {
    var c := ChildTable(names, root);
    ChildCountTable(names, root);
    HierarchyTable(names, root);
    HierarchyLength(names, root);
    TablesNumbered(names, root, c.counts, c.offsets, c.hierarchy);
  }

  lemma TablesNumbered(names: seq<string>, root: Bone, counts: seq<Word>, offsets: seq<Word>, hierarchy: seq<Word>)
    requires PreOrderNumbered(names, root) && ChildIdsOk(PreOrder([root]), names)
    requires counts == ChildCounts(PreOrder([root])) && Sum(counts) < TWO_31 && offsets == Reader.Offsets(counts)
    requires hierarchy == Concat(ChildLists(PreOrder([root]), names))
    ensures ChildrenNumbered(Reader.Children(counts, offsets, hierarchy), PreOrder([root]))
  {
    var po, c := PreOrder([root]), Reader.Children(counts, offsets, hierarchy);
    forall k, j | 0 <= k < |po| && 0 <= j < |po[k].children|
      ensures ChildNumberedAt(c, po, k, j)
    {
      ChildAt(names, root, counts, hierarchy, k, j);
    }
  }

  /** The j-th id in bone k's slice of the hierarchy numbers bone k's j-th
      child, bones numbered in visiting order. */
  predicate ChildrenNumbered(c: Reader.Children, po: seq<Bone>)
  {
    && |c.offsets| == |po|
    && forall k, j :: 0 <= k < |po| && 0 <= j < |po[k].children| ==> ChildNumberedAt(c, po, k, j)
  }

  /** Bone k's j-th child id lies in the hierarchy and numbers that child. */
  predicate ChildNumberedAt(c: Reader.Children, po: seq<Bone>, k: nat, j: nat)
    requires k < |c.offsets| && k < |po| && j < |po[k].children|
  {
    && c.offsets[k] + j < |c.hierarchy|
    && 0 <= c.hierarchy[c.offsets[k] + j] < |po| && po[c.hierarchy[c.offsets[k] + j]] == po[k].children[j]
  }

  /** Bone k's j-th child id, read at bone k's offset plus j, numbers bone
      k's j-th child. */
  lemma ChildAt(names: seq<string>, root: Bone, counts: seq<Word>, hierarchy: seq<Word>, k: nat, j: nat)
    requires PreOrderNumbered(names, root) && ChildIdsOk(PreOrder([root]), names)
    requires counts == ChildCounts(PreOrder([root])) && Sum(counts) < TWO_31
    requires hierarchy == Concat(ChildLists(PreOrder([root]), names))
    requires k < |PreOrder([root])| && j < |PreOrder([root])[k].children|
    ensures var po, at := PreOrder([root]), Reader.Offsets(counts)[k] + j;
      && at < |hierarchy| && 0 <= hierarchy[at] < |po| && po[hierarchy[at]] == po[k].children[j]
  {
    var po := PreOrder([root]);
    var lists := ChildLists(po, names);
    assert Lengths(lists) == counts;
    OffsetIndex(lists, counts, k, j);
    var child := po[k].children[j];
    PreOrderCloses([root]);
    var i :| 0 <= i < |po| && po[i] == child;
    assert hierarchy[Reader.Offsets(counts)[k] + j] == SidIndex(names, child.sid).value == i;
  }
}
