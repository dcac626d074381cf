# bruhaps asset pipeline and engine core, modelled in Dafny

This project models the core of the bruhaps game. It has two sides.

The first side is the offline converter, `dae_parser.py`. It takes a
COLLADA (`.dae`) document that has already been parsed into an element
tree. It extracts five things:

- the mesh, with triangle corners deduplicated into vertices;
- the skin: joint names, inverse bind matrices and per-vertex joint weights;
- the animation keyframes;
- the skeleton, as a nested dictionary of bone sids;
- the bone hierarchy.

It then writes them, section after section, as 32-bit words with
`struct.pack`. Python's exceptions are modelled as an error value. Partial
writes are modelled too: a script that raises leaves the words it wrote
before the exception.

The second side is the C engine code that consumes such data:

- `modelLoad` and `animatedLoad` (src/res.c) read model streams and check
  every count, allocation and the end of the file.
- The terrain table (src/terrain.c) is a 32 x 32 map of 16 x 16-tile
  chunks. The model covers its height lookup, lazy chunk creation, height
  and texture setters, save and load, and the quad mesh built for one chunk.
- Animation playback (src/animation.c) wraps the clock, picks the pair of
  keyframes around the current time for each bone, and walks the bone tree
  to compute the armature matrices.
- The sound mixer (src/audio.c) keeps a fixed array of sound slots with a
  free list. `playSound` takes the head of that list, and the mixing
  callback puts finished sounds back at its tail.
- The WAV loader (src/audio.c) checks the RIFF and WAVE tags, reads the
  format fields, and scans for the `data` tag with a four-state machine.

Python lists are sequences and Python dicts are sequences of entries in
insertion order. C integer conversions are written out as `Int32` and
`UInt32`. Two things are parameters because their numerics are not
modelled: the IEEE single-precision encoding of a float (`f32`) and
`math.sqrt` (`sqrt`). Floats are reals.

Three engine entities are classes whose methods update fields in place:

- `Terrain.Terrain`, over its `chunkMap` array;
- `Audio.Mixer`, over its slot array and the output buffer;
- `Reader.WordFile`, the open file the loaders read from.

Two more are modelled as classes. The converter's output file is
`Writer.OutputFile`, and the animation clock is `Animation.Clip`.

The converter's loops are methods proved against specification functions:

- the vertex dedup loop;
- the weight expansion;
- `walk_bones_counts`;
- the per-section writes;
- the running offset totals of `animatedLoad`.

The engine's loops are methods in the same way: the chunk mesh loops, the
keyframe search, the pose pass, the armature walk, the mixing loops and
the WAV scanner.

The two sides meet in `RoundTrip`: the words the converter writes for a
model whose joint names follow the skeleton's walk order are read back by
`animatedLoad` as the mesh, skin, key frames and bone hierarchy they were
written from.

The mixer runs the per-sound loop as the source writes it. The loop its
authors evidently intended is modelled beside it, with the inputs on
which the two differ (see "Findings").

## Model

| member | source | states |
|---|---|---|
| Py.At | dae_parser.py:90 | Python list indexing succeeds exactly for -len <= i < len; a negative index counts from the end |
| Py.IndexOf | dae_parser.py:353 | `list.index` succeeds exactly when the value occurs; it returns the first position holding it, and otherwise raises ValueError |
| Py.IndexOfAppend | dae_parser.py:353 | appending to a list does not move earlier first occurrences; a newly appended value is found at the end |
| Py.Chunks | dae_parser.py:132 | `values[i:i+n] for i in range(0, len, n)`: every chunk is non-empty with at most n elements, and all but the last have exactly n |
| Py.ChunksConcat | dae_parser.py:132 | the chunks concatenate back to the input: nothing is lost or reordered |
| XmlTree.Named | dae_parser.py:27-28 | `named` raises exactly when the tag has no '}'; it is true exactly when the text after the first '}' is the wanted name |
| XmlTree.FirstNamed | dae_parser.py:30-33 | the position found is the first child with the name, every earlier child is named otherwise, and None means no child has the name |
| XmlTree.Get | dae_parser.py:30-34 | `get` returns the first child in document order with the name, or None when no child has it; it fails exactly when the search hits a tag without a namespace first |
| XmlTree.GetIn | dae_parser.py:30-31 | iterating over None raises; otherwise `GetIn` is `get` |
| XmlTree.WalkAppend | dae_parser.py:36-39 | `WalkFrom`: walking a path in two parts equals walking the first part, then walking the second from where it ended |
| XmlTree.WalkOne | dae_parser.py:36-39 | a one-step walk is one `get` |
| XmlTree.WalkThroughMissing | dae_parser.py:36-39 | a walk that reaches a missing element before its last step raises on None |
| XmlTree.Tokens | dae_parser.py:76 | `.text.split()` succeeds exactly when the element exists and has text |
| XmlTree.Floats | dae_parser.py:76 | `[float(i) ...]` succeeds exactly when every token is a float literal; the result holds each token's value in order |
| XmlTree.Ints | dae_parser.py:85 | `[int(i) ...]` succeeds exactly when every token is an int literal; the result holds each token's value in order |
| XmlTree.Attribute | dae_parser.py:72-79 | `source.get("id")` gives the attribute's value when the element has it, and None otherwise |
| XmlTree.ChildFloats | dae_parser.py:76 | `[float(i) for i in get(e, c).text.split()]` fails as `get` does, raises on a missing child, and otherwise succeeds exactly when the child has text whose every token is a float literal, giving their values in order |
| XmlTree.ChildInts | dae_parser.py:84-85 | `[int(i) for i in get(t, "p").text.split()]` raises on a missing parent or child, fails as `get` does, and otherwise succeeds exactly when every token is an int literal, giving their values in order |
| Mesh.Triples | dae_parser.py:89-90 | the index stream yields `len // 3` complete (p, n, t) groups |
| Mesh.SourceStep | dae_parser.py:72-80 | one child leaves each array as it was or replaces it with that child's floats; a child that is not a source changes nothing; a failure is that source's float conversion failing |
| Mesh.ScanSourcesFrom | dae_parser.py:71-80 | without sources the arrays stay as they started; after the loop each array is the start one or the floats of some source; a failure is some source's float conversion failing |
| Mesh.ScanSourcesAppend | dae_parser.py:71-80 | looping over two runs of children is looping over the first and then over the second from where it left: a later source replaces what an earlier one read |
| Mesh.Vertices | dae_parser.py:96-100 | one vertex for each triple it is given |
| Mesh.DedupSpec | dae_parser.py:91-102 | the dedup gives one index per corner |
| Mesh.TriplesLength | dae_parser.py:89-90 | the corners fill whole triples exactly when their count is a multiple of 3; otherwise one or two are left over |
| Mesh.MakeVertexWindows | dae_parser.py:96-100 | with in-range indices, a vertex holds exactly the 3 position floats, the 3 normal floats and the 2 texture floats its indices select |
| Mesh.FirstSeenProperties | dae_parser.py:91-102 | the first-seen order holds every triple of the stream exactly once and no other |
| Mesh.FirstSeenStep | dae_parser.py:91-102 | one more corner extends the first-seen order exactly when its triple is new |
| Mesh.PositionDistinct | dae_parser.py:95 | in a list without repeats, an element's position is the one index that holds it |
| Mesh.DedupStep | dae_parser.py:90-102 | one loop turn keeps the dedup invariant: a known triple appends `loaded[t]`; a new one appends a vertex and the index `len(loaded)` |
| Mesh.Deduplicate | dae_parser.py:87-102 | the loop raises IndexError exactly when the corner count is not a multiple of 3; otherwise it returns the specified dedup of the triples |
| Mesh.DedupDone | dae_parser.py:87-102 | a loop state that has seen every corner is the specified mesh |
| Mesh.DedupIndicesValid | dae_parser.py:93-101 | every index names a vertex, and that vertex was built from the corner's own triple |
| Mesh.DedupSameIndex | dae_parser.py:91-102 | two corners share an index exactly when they share a (p, n, t) triple |
| Mesh.DedupVertexCount | dae_parser.py:91-102 | there is one vertex per distinct triple and never more vertices than corners |
| Mesh.FirstSeenPrefix | dae_parser.py:91-102 | the vertices made from a prefix of the corners are a prefix of all vertices |
| Mesh.DedupNewTriple | dae_parser.py:95-101 | a triple first seen at corner k gets the number of vertices made before it |
| Mesh.MeshSpec | dae_parser.py:61-109 | `MeshSources`: `get_mesh_data` propagates a source failure and returns None without geometries; otherwise it raises IndexError on a corner count that is not a multiple of 3, or returns the dedup of the triples |
| Mesh.GetMeshData | dae_parser.py:61-109 | the method computes `MeshSpec` |
| Skin.Pair | dae_parser.py:148-149 | a joint/weight pair is readable exactly when both `v` entries and the weight they index exist; otherwise it raises IndexError |
| Skin.Entry | dae_parser.py:144-151 | a vertex's entry succeeds exactly when each of its pairs does; pair j holds the ids and weights read at `start + 2j` |
| Skin.WeightsSpec | dae_parser.py:141-153 | there is one entry per vertex count, and failures are IndexError |
| Skin.WeightsPrefixErr | dae_parser.py:141-153 | a failure on the first k vertices is a failure of the whole expansion |
| Skin.ExpandWeights | dae_parser.py:141-153 | the loop computes `WeightsSpec` |
| Skin.ExpandEntry | dae_parser.py:144-151 | `PairCount`: the inner loop computes the entry of one vertex, two `v` entries per pair |
| Skin.EntryPrefixErr | dae_parser.py:147-149 | an entry whose first c pairs fail fails whatever its length |
| Skin.WeightsEntries | dae_parser.py:141-153 | entry k reads the pairs that follow all the pairs of the entries before it: its reads start at twice the sum of the earlier counts |
| Skin.WeightsSucceed | dae_parser.py:141-153 | a `v` stream long enough for all pairs, whose weight indices are all in range, expands without error |
| Skin.EntryInRange | dae_parser.py:147-149 | c pairs after the first s are readable when the stream holds them and their weight indices are in range |
| Skin.ScanSkinSources | dae_parser.py:124-134 | the skin sources only append: names, matrices and weights extend what came before, in document order |
| Skin.BindPoseChunks | dae_parser.py:131-132 | a bind-pose array whose length is a multiple of 16 gives only full 16-float matrices, and they concatenate back to the floats |
| Skin.SkinSpec | dae_parser.py:112-162 | `SkinInputs`: `get_controller_data` propagates the first failure; otherwise it returns the names, the matrices and the expanded weights |
| Skin.GetControllerData | dae_parser.py:112-162 | the method computes `SkinSpec` |
| Frames.ScanBoneSources | dae_parser.py:173-181 | the sources of one bone only append: time stamps and transforms extend what came before |
| Frames.BonesFrames | dae_parser.py:169-183 | one frame pair per animation child, in order; the scan fails exactly when some child's sources fail, and then with the first such failure |
| Frames.FrameData | dae_parser.py:165-168 | a document without an `animation` element raises on iterating None |
| Frames.At4 | dae_parser.py:216-217 | `at(x, y)` of in-range x and y is an index into a 16-float matrix |
| Frames.ToPosition | dae_parser.py:277-278 | `to_position` succeeds exactly for matrices of at least 12 floats, and gives the translation column with 1.0 appended |
| Frames.Pivot | dae_parser.py:249-269 | `to_quaternion` takes one of its four branches |
| Frames.RadicandAtLeastOne | dae_parser.py:250-270 | whatever the diagonal, the branch taken takes the square root of a number of at least 1 |
| Frames.ToQuaternion | dae_parser.py:249-275 | a matrix of fewer than 11 floats raises IndexError; with a positive root a long enough matrix always gives 4 components; the only other failure is ZeroDivisionError |
| Frames.QuaternionTraceBranch | dae_parser.py:251-256 | in the positive-trace branch, w is half the root of trace + 1, and 4w times (x, y, z) are the antisymmetric differences of the matrix |
| Frames.IdentityQuaternion | dae_parser.py:249-275 | the identity matrix converts to the identity rotation (1, 0, 0, 0) |
| Influence.Zip | dae_parser.py:308 | `zip` pairs the ids and weights up to the shorter list |
| Influence.InsertPair | dae_parser.py:309 | inserting into a sorted list adds exactly one element |
| Influence.SortDesc | dae_parser.py:309 | the sort keeps the length |
| Influence.InsertPairElements | dae_parser.py:309 | insertion adds exactly the new pair to the multiset |
| Influence.InsertPairSorted | dae_parser.py:309 | insertion keeps a heaviest-first list sorted |
| Influence.InsertPairStable | dae_parser.py:309 | insertion puts the new pair after every pair of its weight |
| Influence.SortDescProperties | dae_parser.py:309 | `sort(key=weight, reverse=True)` is heaviest first, a permutation, and stable: pairs of equal weight keep their order |
| Influence.Fit4 | dae_parser.py:311-314 | the result always has 4 pairs: the first four of a longer list, or a shorter list padded with (0, 0.0) |
| Influence.ZipUnzip | dae_parser.py:308-317 | splitting the pairs into ids and weights and zipping them again gives the pairs back; zipping two lists of one length and splitting the result gives the lists back |
| Influence.SumSquares | dae_parser.py:319 | a sum of squares is never negative |
| Influence.Scale | dae_parser.py:320 | each scaled weight times the length is the original weight |
| Influence.SumSquaresScale | dae_parser.py:319-320 | dividing by the length divides the sum of squares by the length squared |
| Influence.VertexInfluences | dae_parser.py:308-320 | a vertex writes 4 ids and 4 weights; a position index without weights raises IndexError, and the only other failure is ZeroDivisionError |
| Influence.UnitWeights | dae_parser.py:319-320 | with an exact square root, the written weights have unit length |
| Influence.ZeroWeightsRaise | dae_parser.py:319-320 | a vertex whose weights are all zero raises ZeroDivisionError |
| Influence.KeptAreHeaviest | dae_parser.py:308-314 | the four pairs kept come from the vertex's own pairs, and no dropped pair is heavier than a kept one |
| Skeleton.Lookup | dae_parser.py:204 | a dictionary lookup finds an entry exactly when the key is present, and the entry carries that key |
| Skeleton.Insert | dae_parser.py:204 | `d[k] = v` adds an entry exactly when the key is new |
| Skeleton.KeysInsert | dae_parser.py:204 | an existing key keeps its place in iteration order; a new key goes last |
| Skeleton.InsertLookup | dae_parser.py:204 | assignment keeps keys unique, maps the key to the new value, and keeps every other key's value |
| Skeleton.WalkSkeleton | dae_parser.py:196-206 | `walk_skeleton` builds a dictionary with unique keys at every level |
| Skeleton.WalkChildren | dae_parser.py:201-204 | the child loop keeps every level's keys unique |
| Skeleton.InsertWellFormed | dae_parser.py:204 | assigning a well-formed subtree keeps the dictionary well formed |
| Skeleton.SkeletonData | dae_parser.py:191-213 | the skeleton returned has unique keys at every level |
| Skeleton.PreOrder | dae_parser.py:352-354 | the recursive walks visit at least the bones of the top level |
| Skeleton.SidIndex | dae_parser.py:353 | `bone_names.index(sid)` succeeds exactly for a present sid and returns a position holding it; otherwise it raises ValueError |
| Skeleton.CountWrites | dae_parser.py:352-354 | the count writes keep the list's length, and their only failure is ValueError |
| Skeleton.CountWritesAppend | dae_parser.py:352-354 | the writes for two visit sequences are the writes for the first, then for the second |
| Skeleton.CountWritesVisit | dae_parser.py:352-354 | visiting bone k writes its own count, then its subtree's counts, then those of its later siblings |
| Skeleton.WalkBonesCounts | dae_parser.py:348-354 | the recursive method fails exactly when the specified writes fail; on success the list holds those writes |
| Skeleton.CountWritesDistinct | dae_parser.py:348-356 | when visited bones have distinct name slots, each slot holds its bone's child count and every other slot is kept |
| Skeleton.ChildIds | dae_parser.py:365 | the ids list succeeds exactly when every child's sid is a bone name, and holds each child's index in order |
| Skeleton.ChildIdsStops | dae_parser.py:365 | one child whose sid is not a bone name makes the whole list raise |
| Skeleton.ChildLists | dae_parser.py:365 | there is one id list per bone |
| Skeleton.HierarchyStream | dae_parser.py:361-368 | `walk_bones` can only fail with ValueError or a pack range error |
| Skeleton.HierarchyEach | dae_parser.py:367-368 | the loop over the children can only fail with ValueError or a pack range error |
| Skeleton.HierarchyStreamStart | dae_parser.py:365-368 | once a dictionary's child ids are written, what remains is the walk over its bones from the first |
| Skeleton.HierarchyEachStep | dae_parser.py:367-368 | one turn of the loop appends bone k's stream; it then goes on with bone k + 1, or stops with that stream's exception |
| Skeleton.HierarchyIsPreOrder | dae_parser.py:361-370 | when every bone's children are bone names, the hierarchy stream is the child-id lists of the bones in pre-order, concatenated |
| Skeleton.PreOrderChildTotal | dae_parser.py:348-368 | over the bones the walks visit, the child counts add up to the number of visited bones that are not keys of the top dictionary |
| Skeleton.PreOrderCloses | dae_parser.py:348-368 | the walks visit every key of the dictionary and every child of every bone they visit |
| Stream.PackInt | dae_parser.py:293 | `pack("i")` succeeds exactly for values in the int range; the word read back as a signed int is the value |
| Stream.PackUInts | dae_parser.py:304 | `pack("I" * n)` is all or nothing: it succeeds exactly when every value is in the unsigned range, and then the words are the values |
| Stream.FloatWords | dae_parser.py:299 | one encoded word per float, in order |
| Stream.FloatWordsAppend | dae_parser.py:299-301 | encoding two runs of floats is encoding their concatenation |
| Stream.PackFloats | dae_parser.py:299 | `pack("f" * n)` succeeds exactly when given n values, and then gives their encodings |
| Stream.Packed | dae_parser.py:293 | `f.write(pack(...))` writes exactly when the pack succeeds |
| Stream.SequenceWritten | dae_parser.py:292-370 | a run of writes raises exactly when one of them does; when none does, the file holds all their words in order |
| Stream.SequenceStep | dae_parser.py:298-301 | a run of k + 1 writes is the run of k writes, then write k |
| Stream.SequenceStops | dae_parser.py:292-370 | once a write raised, the later writes change nothing |
| Stream.LoopStep | dae_parser.py:298-301 | one turn of a write loop: the file gains write k's words, and the run's outcome is that of the first k + 1 writes |
| Stream.ThenAssociative | dae_parser.py:292-370 | chaining writes regroups freely |
| Stream.ThenWritten | dae_parser.py:292-370 | two chained writes raise exactly when one does; when the first does not, the file holds both in order |
| Stream.SequenceRecords | dae_parser.py:298-343 | a run of writes of n words each goes through, holds n words per write, and its n-word records are the writes' words in order |
| Stream.FloatWordsConcat | dae_parser.py:334-335 | encoding float lists one after the other is encoding their concatenation |
| Stream.SequenceAppend | dae_parser.py:292-370 | a run of writes followed by another is the two runs chained |
| Stream.SequenceFlattens | dae_parser.py:338-343 | running groups of writes one group after the other is running all their writes in one run |
| Emitter.HeaderWritten | dae_parser.py:292-295 | `HeaderEmission`: the header is written exactly when the vertex, index and bone counts fit an int, and is then those three counts; otherwise the range error stops it at the first count that does not fit, after the counts before it |
| Emitter.VertexWritten | dae_parser.py:299-301 | `VertexEmission`: a vertex is written exactly when it has 3 position, 3 normal and 2 texture values, and then as those 8 floats in order |
| Emitter.VertexSection | dae_parser.py:298-301 | the vertex loop goes through exactly when every vertex has that shape; the section then holds 8 words per vertex, record i being vertex i's floats |
| Emitter.InfluenceWritten | dae_parser.py:307-323 | `InfluenceEmission`: a vertex's influences are written exactly when they can be computed and their ids fit unsigned words, and then as the 4 ids followed by the 4 weights |
| Emitter.InfluenceSection | dae_parser.py:307-323 | the influence loop goes through exactly when every vertex's influences are written; record i then holds vertex i's ids and weights |
| Emitter.IbmSection | dae_parser.py:326-327 | the matrix loop goes through exactly when every matrix has 16 values; record i is then matrix i's floats |
| Emitter.FrameCountSection | dae_parser.py:330-331 | the frame-count loop goes through exactly when every bone's count fits an int, and writes one word per bone: its number of time stamps |
| Emitter.InputSection | dae_parser.py:334-335 | the time-stamp loop never raises and writes every bone's time stamps, bone after bone |
| Emitter.TransformWritten | dae_parser.py:340-343 | `TransformEmission`: a transform is written exactly when its matrix has a translation and a rotation can be computed from it, and then as the translation with 1.0 appended and the quaternion: 8 floats |
| Emitter.TransformPartsConcat | dae_parser.py:338-343 | the nested transform loops write what one loop over all key-frame matrices, bone after bone, writes |
| Emitter.BoneTransformSection | dae_parser.py:338-343 | the transform loops go through exactly when every key-frame matrix is transformable; record j is then the transform of the j-th matrix, counting bone after bone |
| Emitter.Convert | dae_parser.py:281-372 | a mesh failure stops the script before the file is opened; a document without geometries opens the file and raises at the first header write, leaving it empty |
| Emitter.UnvisitedNameRaises | dae_parser.py:346-357 | a bone name that no visited bone carries keeps its -1, and packing it as unsigned raises: the file ends before the child counts |
| Emitter.CountWritesOther | dae_parser.py:352-354 | a count slot that no write targets keeps its value |
| RoundTrip.EmitRoundTrip | dae_parser.py:292-370 | a file the script writes to the end, with as many matrices and key-frame lists as bone names, as many transforms as time stamps per bone, a key-frame total that fits an int and names in walk order, is accepted by `animatedLoad` (src/res.c:68-132), which returns the model the file describes |
| RoundTrip.EmitLayout | dae_parser.py:292-370 | such a file opens with the vertex, index and bone counts and holds 2 + 16 per vertex + 1 per index + 19 per bone + 9 per key frame words |
| RoundTrip.EmitParts | dae_parser.py:292-370 | a file written to the end has written every section |
| RoundTrip.EmitWords | dae_parser.py:292-370 | the file holds the sections' words in the order the script writes them |
| RoundTrip.LoadedWords | dae_parser.py:292-370 | the file's words are the described model's words in the order `animatedLoad` reads them |
| RoundTrip.LoadedFits | src/res.c:68-132 | the model the file describes is one `animatedLoad` can return: its counts fit, and its arrays are as long as the counts say |
| RoundTrip.SkinnedFits | src/res.c:79-91 | the vertex, weight and matrix arrays the file describes have the header's lengths and record sizes |
| RoundTrip.FramesFits | src/res.c:93-110 | the frame table the file describes has one count per bone, the running offsets, and as many time stamps and 8-word transforms as key frames |
| RoundTrip.ChildrenFits | src/res.c:112-126 | the child table the file describes has one count per bone, the running offsets, and one id per bone except the root |
| RoundTrip.SkinContents | src/res.c:79-91 | vertex i reads back as its 8 floats, vertex weights i as its 4 ids and 4 weights, and matrix b as its 16 floats |
| RoundTrip.FrameContents | src/res.c:93-110 | bone b's frame count reads back as its number of time stamps, and its t-th time stamp and transform are found at its offset plus t |
| RoundTrip.ChildContents | src/res.c:112-126 | bone k's child count reads back as its number of children, and the id at its offset plus j numbers its j-th child in walk order |
| RoundTrip.FrameCountTotal | src/res.c:99-103 | the frame counts read back add up, as an int, to the number of key frames |
| RoundTrip.ChildCountTotal | src/res.c:117-121 | the child counts read back add up, as an int, to one less than the number of bones |
| RoundTrip.ChildCountTable | dae_parser.py:346-357 | `ChildCountEmission`: with names in walk order, the written child counts are the visited bones' numbers of children, in walk order |
| RoundTrip.HierarchyTable | dae_parser.py:359-370 | with names in walk order, the hierarchy goes through and is the visited bones' child ids, bone after bone in walk order |
| RoundTrip.HierarchyLength | dae_parser.py:359-370 | each bone's id list is as long as its child count, and the hierarchy holds one id per bone except the root |
| RoundTrip.OffsetIndex | src/res.c:99-103 | the element at a part's running offset plus j is that part's j-th element |
| Reader.AnimatedWordsLayout | src/res.c:75-126 | a well-formed model's words open with its three counts and number 16 per vertex, 1 per index, 18 per bone, 9 per key frame and 1 per child id |
| Writer.OutputFile.Write | dae_parser.py:293 | a write appends the pack's words, or appends nothing and reports the exception |
| Writer.WriteHeader | dae_parser.py:293-295 | the file gains the header's words |
| Writer.WriteVertex | dae_parser.py:299-301 | the file gains one vertex's three packs |
| Writer.WriteVertices | dae_parser.py:298-301 | the loop appends the vertex writes in order, stopping at the first exception |
| Writer.WriteInfluence | dae_parser.py:308-323 | the file gains one vertex's ids and weights, or the exception computing them |
| Writer.WriteIdsWeights | dae_parser.py:322-323 | `IdsWeightsEmission`: the file gains the 4 ids and the 4 weights |
| Writer.WriteInfluences | dae_parser.py:307-323 | the loop appends the influence writes in order, stopping at the first exception |
| Writer.WriteIbms | dae_parser.py:326-327 | the loop appends the matrices in order |
| Writer.WriteFrameCounts | dae_parser.py:330-331 | the loop appends the frame counts in order |
| Writer.WriteInputs | dae_parser.py:334-335 | the loop appends the time stamps in order |
| Writer.WriteTransform | dae_parser.py:340-343 | the file gains one transform's position and rotation |
| Writer.WriteBoneTransforms | dae_parser.py:339-343 | the inner loop appends one bone's transforms |
| Writer.WriteTransforms | dae_parser.py:338-343 | the outer loop appends every bone's transforms |
| Writer.WriteChildCounts | dae_parser.py:346-357 | the counts, filled in place by the walk, are written in one pack |
| Writer.WalkBones | dae_parser.py:361-368 | the recursive method writes the hierarchy stream |
| Writer.ChildIdsOf | dae_parser.py:365 | the comprehension computes the child ids |
| Writer.WriteMesh | dae_parser.py:292-304 | the file gains the header, the vertices and the indices |
| Writer.WriteSkin | dae_parser.py:306-327 | the file gains the influences and the matrices |
| Writer.WriteAnimation | dae_parser.py:329-343 | the file gains the frame counts, the time stamps and the transforms |
| Writer.WriteSkeleton | dae_parser.py:345-370 | the file gains the child counts and the hierarchy |
| Writer.WriteAll | dae_parser.py:292-370 | the file gains every section in order |
| Writer.Run | dae_parser.py:281-372 | the script's outcome is `Convert` of the document |
| Reader.Take | src/utils.h:26-31 | `safe_read` of n words succeeds exactly when n words are left, and it splits the stream there |
| Reader.Alloc | src/res.c:17-21 | an allocation for a count fails exactly when the int count is negative |
| Reader.AtEnd | src/res.c:26 | `eof_check` passes exactly on an exhausted stream |
| Reader.Offsets | src/res.c:99-103 | offset i is the wrapped running total of the counts before i |
| Reader.DecodeModel | src/res.c:14-26 | a `.model` stream that loads has non-negative counts and arrays of exactly those lengths |
| Reader.DecodeFrames | src/res.c:93-110 | the frame table has one count per bone, offsets that are the running totals, and as many time stamps and 8-word transforms as the wrapped total |
| Reader.DecodeChildren | src/res.c:112-126 | the child table has one count per bone, the running offsets, and as many hierarchy ids as the wrapped total |
| Reader.DecodeHeader | src/res.c:75-77 | the three header counts are read as signed ints |
| Reader.DecodeSkinned | src/res.c:79-91 | the vertices, indices, weights and matrices are as many as the header says |
| Reader.DecodeAnimated | src/res.c:75-128 | every loaded animated model is well formed |
| Reader.WordFile.Read | src/utils.h:26-31 | a read returns the next n words and advances the file, or reports a short read |
| Reader.WordFile.CheckEnd | src/utils.h:51-55 | `eof_check` passes exactly on an exhausted file |
| Reader.ModelLoad | src/res.c:8-30 | the method computes `DecodeModel` of the file's words |
| Reader.FillOffsets | src/res.c:99-103 | the loop stores the running totals as offsets and leaves the wrapped total |
| Reader.AnimatedLoad | src/res.c:68-132 | the method computes `DecodeAnimated` of the file's words |
| Reader.ReadFrames | src/res.c:93-110 | the frame part reads what `DecodeFrames` decodes and leaves the rest unread |
| Reader.ReadChildren | src/res.c:112-126 | the child part reads what `DecodeChildren` decodes and leaves the rest unread |
| Reader.TakeAppend | src/utils.h:26-31 | reading the words in front of the rest returns them |
| Reader.CountWord | src/res.c:14-15 | a count written as a word reads back as the count |
| Reader.WordOfCount | src/res.c:101-102 | a word read as an int and stored as unsigned is the word |
| Reader.ModelRoundTrip | src/res.c:8-30 | `modelLoad` accepts the words of every well-sized model and returns that model |
| Reader.ModelExact | src/res.c:8-30 | an accepted `.model` stream is exactly the words of what was loaded |
| Reader.TakeExtend | src/utils.h:26-31 | more words after a stream do not change what a read of it returns |
| Reader.ModelTrailing | src/res.c:26 | any word after an accepted `.model` stream makes `eof_check` exit |
| Reader.TakeCut | src/utils.h:26-31 | a stream cut after j words reads the same words when they fit in the cut, and is a short read otherwise |
| Reader.ModelTruncated | src/res.c:14-24 | an accepted `.model` stream that is cut short makes `safe_read` exit |
| Reader.HeaderRoundTrip | src/res.c:75-77 | non-negative header counts read back as written |
| Reader.SkinnedRoundTrip | src/res.c:79-91 | arrays that fit the header read back as written |
| Reader.FramesRoundTrip | src/res.c:93-110 | a frame table that fits its bone count reads back as written |
| Reader.ChildrenRoundTrip | src/res.c:112-126 | a child table that fits its bone count reads back as written |
| Reader.AnimatedFollowedBy | src/res.c:68-132 | a well-formed animated model's words load back as the model; with any word after them, `eof_check` exits |
| Reader.AnimatedRoundTrip | src/res.c:68-132 | `animatedLoad` accepts the words of every well-formed animated model and returns that model |
| Reader.HeaderExact | src/res.c:75-77 | the header words read plus the rest are the stream |
| Reader.SkinnedExact | src/res.c:79-91 | the array words read plus the rest are the stream |
| Reader.FramesExact | src/res.c:93-110 | the frame table words read plus the rest are the stream |
| Reader.ChildrenExact | src/res.c:112-126 | the child table words read plus the rest are the stream |
| Reader.AnimatedExact | src/res.c:68-132 | an accepted animated stream is exactly the words of what was loaded |
| Reader.AnimatedTrailing | src/res.c:128 | any word after an accepted animated stream makes `eof_check` exit |
| ChunkMap.EmptyHeights | src/terrain.c:225-226 | a new chunk's heights are all `NO_TILE` |
| ChunkMap.BlankTextures | src/terrain.c:228-229 | a new chunk's textures are all zero |
| ChunkMap.Locate | src/terrain.c:177-186 | a coordinate has a cell and a tile exactly when both coordinates lie in [0, 512); the cell and the tile are in range |
| ChunkMap.LocateInjective | src/terrain.c:180-193 | two coordinates never share a cell and a tile |
| ChunkMap.MappedCount | src/terrain.c:310-313 | at most n of the first n cells are mapped |
| ChunkMap.ClearedMap | src/terrain.c:264-268 | every cell is `NO_CHUNK` |
| ChunkMap.ClearedShowsNothing | src/terrain.c:175-194 | `HeightOf` and `TextureOf`: a cleared map reads `NO_TILE` and no texture everywhere |
| ChunkMap.ClearedCount | src/terrain.c:264-268 | a cleared map has no mapped cell |
| ChunkMap.EmptyValid | src/terrain.c:264-268 | an empty terrain satisfies the table invariant |
| ChunkMap.MappedCountUpdate | src/terrain.c:217-218 | mapping one more cell counts one more |
| ChunkMap.MappedCountPattern | src/terrain.c:310-313 | the count depends only on which cells are mapped |
| ChunkMap.EnsureValid | src/terrain.c:197-241 | chunk creation keeps the invariant and maps the cell; it is invisible to every height lookup and keeps visible textures |
| ChunkMap.SetHeightSpec | src/terrain.c:244-251 | `WithHeight`: after a set, `atTerrainHeight` there is the new height and every other coordinate reads as before; visible textures are kept, and off the map nothing changes |
| ChunkMap.SetTextureSpec | src/terrain.c:254-261 | `WithTexture`: after a set, the texture there is the new one and every other visible texture is kept; no height changes, and off the map nothing changes |
| ChunkMap.LoadRecords | src/terrain.c:284-301 | loading the records stores one chunk per record; the only failure is a cell outside the map |
| ChunkMap.LoadFile | src/terrain.c:271-302 | a wrong tag fails; a loaded table has `chunkCount` chunks (none for a negative count); too few records fail |
| ChunkMap.SaveRecordsCount | src/terrain.c:305-325 | `terrainSave` writes one record per mapped cell |
| ChunkMap.SaveLoadPrefix | src/terrain.c:284-321 | loading the records saved for the first n cells succeeds and matches those cells |
| ChunkMap.LoadStep | src/terrain.c:284-301 | a saved record for a mapped cell, loaded after the records before it, keeps the loaded table matching |
| ChunkMap.LoadSkip | src/terrain.c:312-313 | an unmapped cell writes no record and changes nothing |
| ChunkMap.SaveLoadRoundTrip | src/terrain.c:271-325 | `SavedFile`: saving a valid terrain and loading the file succeeds and keeps the invariant; every coordinate shows the same height and texture, though chunk ids may be renumbered |
| ChunkMap.LoadRecordsSnoc | src/terrain.c:284-301 | loading one more record continues from what the records before it loaded: its cell maps to the next chunk, which stores its blocks, or the load fails if the cell is outside the map |
| ChunkMap.LoadFileEnds | src/terrain.c:282-301 | with the first i records loaded, the file loads when i is the record count (0 for a negative count), and fails on a short read when the records run out before it |
| ChunkMap.LoadFailsOn | src/terrain.c:284-301 | a record that fails to load stops every longer load too |
| ChunkMesh.CompleteMapped | src/terrain.c:110-131 | a complete tile lies in a mapped chunk, so the texture lookup reads a stored chunk |
| ChunkMesh.TileVertices | src/terrain.c:136-155 | a complete tile gives four vertices |
| ChunkMesh.QuadIndices | src/terrain.c:157-163 | a quad gives 6 indices, all naming its own 4 vertices |
| ChunkMesh.MeshShape | src/terrain.c:102-171 | `MeshOf`: every emitting tile adds 4 vertices and 6 indices; every index names a vertex, and the counts fit the chunk buffers |
| ChunkMesh.CornerHeights | src/terrain.c:110-127 | the corner loops succeed exactly for a complete tile and return its four corner heights |
| ChunkMesh.WriteTileVertices | src/terrain.c:136-155 | the buffer gains the tile's four vertices after the existing ones |
| ChunkMesh.WriteQuadIndices | src/terrain.c:157-163 | the buffer gains the quad's six indices after the existing ones |
| ChunkMesh.MeshStep | src/terrain.c:104-165 | a complete tile adds its quad to the mesh |
| ChunkMesh.MeshSkip | src/terrain.c:110-127 | a tile with a missing corner adds nothing |
| ChunkMesh.EmitTile | src/terrain.c:104-165 | one turn of the tile loop extends the buffers from the mesh of the tiles before to the mesh including this one |
| ChunkMesh.UpdateChunkMesh | src/terrain.c:102-171 | the buffers hold the mesh of all the chunk's tiles, and the stored counts are its lengths |
| Terrain.NewChunkData | src/terrain.c:225-229 | the fill loops set every height to `NO_TILE` and every texture to zero |
| Terrain.Terrain.constructor | src/terrain.h:59-66 | a new table is empty and valid |
| Terrain.Terrain.ClearChunkMap | src/terrain.c:264-268 | every cell is unmapped afterwards |
| Terrain.Terrain.MaybeCreateChunk | src/terrain.c:197-241 | the table becomes `Ensure` of the old one and stays valid; off the map the location is `NO_CHUNK`, otherwise the location is the cell's chunk and the tile offsets |
| Terrain.Terrain.SetHeight | src/terrain.c:244-251 | the table becomes `WithHeight` of the old one and stays valid |
| Terrain.Terrain.SetTexture | src/terrain.c:254-261 | the table becomes `WithTexture` of the old one and stays valid |
| Terrain.Terrain.Save | src/terrain.c:305-325 | the loops write the saved file of the table |
| Terrain.Terrain.Load | src/terrain.c:271-302 | the load succeeds exactly when the file loads, reports its error otherwise, and on success leaves the loaded table |
| Animation.Clip.constructor | src/animation.h:9-14 | a new clip starts at time 0 |
| Animation.Clip.Update | src/animation.c:4-18 | the time becomes the wrapped time; the result is true exactly when the advanced time was past the loop time |
| Animation.LoopsLeftStep | src/animation.c:12-15 | each turn of the wrap loop takes one loop off the measure |
| Animation.Wrapped | src/animation.c:8-15 | the wrapped time is never past the loop time, and a time that was past it ends up positive |
| Animation.WrappedByWholeLoops | src/animation.c:12-15 | the wrapped time differs from the original by a whole number of loops, at least one exactly when the time was past the loop time |
| Animation.WrappedIdempotent | src/animation.c:12-15 | with a positive loop time, wrapping twice is wrapping once |
| Animation.Stamps | src/animation.c:62-73 | a bone's time stamps are its `frameCounts[index]` words from its offset |
| Animation.Later | src/animation.c:69-75 | the search stops at the first frame after frame 0 whose time is past `time`, or at the last frame |
| Animation.WindowShape | src/animation.c:58-78 | `WindowOf`: a bone has no window exactly when it has no frames; one frame gives its first frame twice, and more frames give two neighbouring frames |
| Animation.WindowBrackets | src/animation.c:66-78 | the window brackets the time: earlier frames are not past it, the second frame is past it unless it is the last, and the time lies between the two frames when the bone's frames span it |
| Animation.BoneWindow | src/animation.c:51-78 | the search loop returns the specified window |
| Animation.ComputePose | src/animation.c:85-94 | each posed bone's transform is blended from its window; the pass stops exactly at the first bone without frames; other transforms are untouched |
| Animation.Child | src/animation.c:41-43 | child i of a bone is a bone |
| Animation.PostOrder | src/animation.c:41-47 | the walk below a bone writes only bones |
| Animation.ChildOrder | src/animation.c:42-43 | the walk below the first n children writes only bones |
| Animation.Apply | src/animation.c:47 | the output after a set of writes holds each written matrix and keeps the rest |
| Animation.ApplyTwice | src/animation.c:42-47 | applying two sets of writes is applying their union, the later winning |
| Animation.ComputeArmature | src/animation.c:21-48 | the recursive walk writes the bones in the specified post-order, each with its specified matrix, and keeps the rest of the output |
| Animation.WritesCover | src/animation.c:21-48 | the walk writes exactly the bones below the start, each with `base` times the local transforms along its chain of children |
| Animation.ChildWritesCover | src/animation.c:41-43 | the walk below the first n children writes exactly their bones, each along its chain |
| Animation.ChainExtend | src/animation.c:39-43 | a chain from a child, after a base that ends with its parent, is a chain from the parent |
| Animation.ChildOrderMember | src/animation.c:42-43 | a bone written below the first n children is written below one of them |
| Animation.Below | src/animation.c:41-43 | in a forest, the parent links of a written bone climb back to the start bone |
| Animation.Apart | src/animation.c:42-43 | in a forest, two different children of one bone have no written bone in common |
| Animation.WrittenOnce | src/animation.c:21-48 | over a forest, each bone below the start is written exactly once |
| Animation.ChildrenWrittenOnce | src/animation.c:42-43 | over a forest, the walk below the children writes each bone once |
| Animation.OffsetFits | src/res.c:99-103 | an offset plus its count stays within a total that fits an int |
| Animation.LoadedKeyframesInRange | src/res.c:93-110 | a loaded armature whose frame total fits an int keeps every bone's frames inside the time stamp array |
| Audio.PassesAsWritten | src/audio.c:51-76 | the source's loop keeps the position inside the played part; a sound with an empty played part is stopped; a callback with no samples left to fill changes nothing |
| Audio.PassesAsWrittenShape | src/audio.c:51-76 | every pass of the source's loop mixes into the buffer from sample 0 and takes `min(left, size)` samples; the first pass reads from the position and every later one from `start`, all inside the played part; the loop ends before `size` samples are written only when the sound has no plays left |
| Audio.PassesAsWrittenStep | src/audio.c:53-75 | one pass of the source's loop: a sound with at least `size` samples left plays `size` of them from its position; one with fewer plays them all and restarts at `start`, stopping when its play count reaches 0 and otherwise looping on with one play fewer (the same count for `TIMES_INF`) |
| Audio.PassesAsWrittenEven | src/audio.c:57-62 | the source's passes over an even played part, from an even distance to its end, with an even `size`, leave an even number of samples to its end, so the stereo pairs stay aligned |
| Audio.AsWrittenAgreesWithoutWrap | src/audio.c:51-76 | when a sound has at least `size` samples left, the source's loop and the intended one agree: one pass of the whole buffer |
| Audio.LoopRestartsAtBufferStart | src/audio.c:53-63 | with a sound two samples from its end, played twice, in a four-sample buffer, the source mixes both passes into the buffer's first samples and moves the sound on by six; the intended loop tiles them; in a six-sample buffer the source uses up the last play where the intended loop keeps one |
| Audio.Passes | src/audio.c:51-76 | the intended loop keeps the position inside the played part; an empty part stops the sound; a full buffer changes nothing |
| Audio.PassesTile | src/audio.c:51-76 | the intended passes tile the buffer from `written` without gaps or overlap, and reach its end unless the sound stopped |
| Audio.PassesStep | src/audio.c:53-75 | one intended pass: a sound with enough samples fills the rest of the buffer; one that runs out restarts at `start` with one play fewer, or stops at zero plays |
| Audio.PassesRead | src/audio.c:57-62 | every intended pass reads inside the played part: the first from the position, the rest from `start` |
| Audio.PassesEven | src/audio.c:57-62 | the intended passes of an even number of samples over an even played part leave an even number of samples to its end |
| Audio.Voiced | src/audio.c:51-89 | one callback's passes over a playing sound, as the source's loop makes them: every pass writes inside the first `size` buffer samples and reads inside the sound's samples, and a sound that still has plays left can be mixed again by the next callback |
| Audio.MixedOutside | src/audio.c:57-60 | mixing passes that lie in the first `size` samples leaves every later buffer sample as it was |
| Audio.Silenced | src/audio.c:38-39 | the first `size` samples are 0 and the rest are kept |
| Audio.MixSlot | src/audio.c:78-89 | the slot bookkeeping keeps the slot links well formed, the slot count and the head |
| Audio.MixAll | src/audio.c:43-90 | the callback's slot loop keeps the slot links well formed, the slot count and the head |
| Audio.MixSlotValid | src/audio.c:78-85 | `FreeAfter`: a finished sound joins the free list at the tail, and nothing else on it changes |
| Audio.MixAllValid | src/audio.c:43-90 | the whole callback keeps the free list, with finished sounds appended after the tail in slot order |
| Audio.MixSlotKeeps | src/audio.c:78-89 | a stopped slot keeps its sound except the tail's link; a playing slot keeps its samples, played part and volumes |
| Audio.MixSegment | src/audio.c:57-60 | each buffer sample of the pass gains the sound sample times its channel's volume, left for even offsets and right for odd ones, and no other buffer sample changes |
| Audio.PlayVoice | src/audio.c:51-76 | the mixing loop leaves the position and play count of `Voiced`, and the buffer is the old one with `Voiced`'s passes mixed in, one after the other |
| Audio.Silence | src/audio.c:38-39 | the first `size` samples become 0 and the rest are kept |
| Audio.StereoSamplesEven | src/audio.c:36 | the doubled unsigned size is even |
| Audio.AllStoppedSilent | src/audio.c:43-49 | with every slot stopped, the callback's slot loop changes neither the slots nor the buffer |
| Audio.Mixer.constructor | src/audio.c:108-116 | the mixer starts with every slot free, from the first to the last |
| Audio.Mixer.EmptySounds | src/audio.c:94-105 | every slot is stopped and linked to the next, the last ends the list, and the free list runs over all slots |
| Audio.Mixer.PlaySound | src/audio.c:20-31 | a sound is played exactly when the head slot is not the last free one; it then takes the head slot and the head moves on, otherwise nothing changes |
| Audio.Mixer.MixSlotAt | src/audio.c:44-89 | one slot of the callback: the slots become `MixSlot` of the old ones, the free list gains the slot if it finished, the buffer becomes `MixVoice` of the old one (unchanged for a stopped slot), and nothing past `size` changes |
| Audio.Mixer.Callback | src/audio.c:34-91 | the buffer's first `size` stereo samples are cleared and every playing sound mixed in slot order (`CallbackBuffer` over `Silenced`); the slots become `MixAll`, finished sounds join the free list in slot order, the rest of the buffer is kept, and with no sound playing the buffer is silent |
| Audio.Mixer.MixSlots | src/audio.c:43-90 | the slot loop makes the slots `MixAll` of the old ones, the buffer `CallbackBuffer` of the old one, and keeps the free list valid |
| Wav.Value | src/audio.c:201 | a little-endian value is below 256 to the number of bytes |
| Wav.Bytes | src/audio.c:201 | a value in n little-endian bytes has n bytes |
| Wav.ValueOfBytes | src/audio.c:201 | a value written in enough little-endian bytes reads back |
| Wav.Find | src/audio.c:170-199 | the scan stops just after the first `data` tag from the start position, and finds none exactly when the rest of the file holds none |
| Wav.Matched | src/audio.c:170-198 | the scanner's state is how much of `dat` the bytes read so far end with |
| Wav.Scan | src/audio.c:170-199 | the scanning loop returns the position after the first `data` tag, or stops at the end of the file |
| Wav.Next | src/audio.c:174-198 | the switch only reaches the five states, and leaves the reset state only on `d`, `a` or `t` |
| Wav.ScanStep | src/audio.c:174-198 | one byte moves the state machine from the match so far to the match one byte on, and it finishes exactly when that byte completes a tag |
| Wav.Got | src/audio.c:140 | `fread` gets all n bytes when the file holds them, otherwise the bytes up to the end |
| Wav.ReadInto | src/audio.c:148 | `fread` replaces the buffer with the file's bytes when they are all there, and keeps the buffer when none are |
| Wav.Frames | src/audio.c:227 | `*length` is the unsigned quotient of the data size by the sample width |
| Wav.WavSpec | src/audio.c:126-232 | `HeaderOf`: a load succeeds only on a file with the tags, at least 44 bytes and a sample width of at least 8 bits; it then returns the header's format, at most `size` data bytes and a length that fits in the size; the RIFF check exits exactly when the file does not start with `RIFF` and is not a proper prefix of it |
| Wav.Tags | src/audio.c:140-153 | the tag checks pass only on a file of at least 12 bytes with `RIFF` and `WAVE` in place |
| Wav.Chunk | src/audio.c:155-227 | after the tags, a load returns the header's format, a size below 2^32, at most `size` data bytes and a length that fits; a missing `data` tag exits |
| Wav.LoadWav | src/audio.c:126-232 | the method computes `WavSpec` of the file |
| Wav.CheckTags | src/audio.c:140-153 | the method computes `Tags` |
| Wav.ReadChunk | src/audio.c:155-227 | the method computes `Chunk` |
| Wav.ReadFormat | src/audio.c:157-166 | `Field`: the header reads leave the format fields at bytes 20 to 36 and the position at 36, or past the end of a shorter file |
| Wav.ShortFileNotWave | src/audio.c:147-153 | a file of 4 to 11 bytes that starts with `RIFF` always fails the `WAVE` check |
| Wav.MakeWav | src/audio.c:126-232 | a canonical file is 44 bytes plus its samples |
| Wav.MakeWavLayout | src/audio.c:140-201 | the canonical file puts each field where the loader reads it |
| Wav.LoadMakeWav | src/audio.c:126-232 | loading a canonical file returns its format and all its samples, with the sample count of the format's width |

## Left out

- Floating point: floats are reals and the IEEE single-precision encoding
  is the parameter `f32`. `math.sqrt` is the parameter `sqrt`. Rounding,
  NaN and infinities are not modelled.
- XML parsing: the document is a tree already. The diagnostic prints of
  `get` and the script's own prints are not modelled, nor `json.dumps`.
- Opening and closing files: `fopen` failure and `file_check` are not
  modelled. The loaders read a file that opened.
- Reader.Alloc: only a negative count fails. A count too large for memory
  is taken to allocate.
- Trailing partial words: every stream is modelled as whole 32-bit words.
- RoundTrip.EmitRoundTrip: requires the joint names in the skeleton's
  walk order, as many matrices and frame lists as names, as many
  transforms as time stamps in each list, and fewer than 2^31 key frames
  in all. The converter writes such files without complaint, but
  `animatedLoad` would read the child table against the wrong bones,
  read misaligned records, or wrap `frameCount`.
- Matrix and quaternion arithmetic in src/animation.c is not modelled:
  `matrixTranslation`, `quaternionToMatrix`, `matrixMultiply`,
  `quaternionNLerp`, `positionLerp` and the blend factor. A pose is stood
  for by the keyframe window it is blended from. A matrix is stood for by
  the chain of bones whose local transforms are multiplied into it.
- Animation.ComputePose: the source stops on `assert(NOT_IMPLEMENTED)`
  for a bone without frames. The model stops the pass there and reports
  how many bones it posed.
- Animation.Ranked: `computeArmatureMatrices` recurses through the child
  table without a bound, so a cyclic child table makes it recurse for
  ever. The model requires a rank on the bones that decreases from
  parent to child, which rules such tables out.
- Animation.Clip.Update: requires a positive loop time or a time that
  already fits. Otherwise the source's loop never ends.
- Animation.LoadedKeyframesInRange: requires the frame counts to total
  less than 2^31. A larger total wraps `frameCount` in `animatedLoad`.
- GL objects: `createChunkObject`, the buffer uploads of
  `updateChunkObject`, normals and UV coordinates are not modelled.
- Terrain capacity: a load with more than 1024 records would write past
  the 1024-entry chunk arrays. The model's sequences are unbounded there.
- ChunkMap.LoadRecords: a record whose cell lies outside the map is
  reported as `OutsideMap`. The C code writes out of bounds there instead.
- The handle write of a finished sound (`*(sound.handle) = NULL`,
  src/audio.c:79-80) is not modelled. The `stoppedCount` counter is never
  read and is not modelled either.
- Audio.MixSegment: the sample product, its conversion to `int16_t` and
  the wrapping `+=` are the parameter `mix`.
- Audio: `TIMES_INF`, `Sound` and `MAX_SOUND_COUNT` are defined in a
  header that is not part of this model. `TIMES_INF` is taken to be -1,
  and the slot count is a constructor parameter.
- Audio.Playable: a sound with `times == TIMES_INF` and `start == end`
  makes the per-sound loop run for ever, since every pass writes nothing
  and restarts. The model requires a non-empty played part or a positive
  play count, which rules it out.
- Audio.PlayVoice: requires the played part, and the samples left in it,
  to be of even length. The source reads past the played part otherwise.
- Audio concurrency: the slot array is `volatile` and shared with the
  audio thread. The model runs one call at a time.
- `initAudio`'s and `exitAudio`'s calls into the platform audio engine
  are not modelled.
- Wav: the printed header fields and `lof` are not modelled.
  `malloc(dataSize)` is taken to succeed. The data bytes are not
  reinterpreted as `int16_t` samples.
- Wav: bytes C leaves uninitialised are not given values. A comparison
  or division that depends on them gives `Indeterminate`: a file that is
  a proper prefix of `RIFF`, a data size cut off by the end of the file,
  or a sample width below 8 bits.

## Findings

| source | as written | input that shows it | evidently intended | confidence | as-written member | corrected member |
|---|---|---|---|---|---|---|
| src/audio.c:53-63 | each pass of the per-sound loop mixes into `buffer[i]` from sample 0, and takes `toWrite = min(left, size)`, however much of the buffer earlier passes filled | a sound with `start = 0`, `end = 10`, `pos = 8`, `times = 2`, in a callback of 4 samples: the first pass mixes samples 8-9 into buffer 0-1; the second mixes samples 0-3 into buffer 0-3 again, and the sound ends at position 4 instead of 2 | mix into `buffer[written + i]`, and take `min(left, size - written)`, so that the passes tile the buffer | high, not executed | Audio.PassesAsWritten, Audio.PassesAsWrittenShape, Audio.LoopRestartsAtBufferStart | Audio.Passes, Audio.PassesTile, Audio.PassesRead |
