/** The engine's loaders (src/res.c): `modelLoad` reads a `.model` stream
    and `animatedLoad` the converter's stream, both as a sequence of 32-bit
    words. Every failure ends the program with `exit(666)`: a short read
    (`safe_read`), a failed allocation (`malloc_check`) or bytes left after
    the last section (`eof_check`), all from src/utils.h. */
module Reader {
  import opened Common
  import opened Stream

  /** Which check ends the program. */
  datatype Exit = ShortRead | BadAlloc | NotAtEnd

  /** A loader's outcome: the loaded value, or the exit. */
  datatype Load<+T> = Loaded(value: T) | Exited(reason: Exit) {
    predicate IsFailure() { Exited? }
    function PropagateFailure<U>(): Load<U> requires Exited? { Exited(reason) }
    function Extract(): T requires Loaded? { value }
  }

  /** The words one read returns, and the words still unread after it. */
  datatype Read = Read(words: seq<Word>, rest: seq<Word>)

  /** `safe_read` of n words: fewer than n left is a short read. */
  function Take(s: seq<Word>, n: nat): (r: Load<Read>)
    ensures r.Loaded? <==> n <= |s|
    ensures r.Exited? ==> r.reason == ShortRead
    ensures r.Loaded? ==> |r.value.words| == n && r.value.words + r.value.rest == s
  {
    if n <= |s| then Loaded(Read(s[..n], s[n..])) else Exited(ShortRead)
  }

  /** `malloc(size * count)` and `malloc_check`: the int count is converted
      to `size_t`, so a negative one asks for an impossible size and fails. */
  function Alloc(count: int): (r: Load<nat>)
    ensures r.Loaded? <==> count >= 0
    ensures r.Loaded? ==> r.value == count
    ensures r.Exited? ==> r.reason == BadAlloc
  {
    if count < 0 then Exited(BadAlloc) else Loaded(count)
  }

  /** `eof_check`: the stream must be exhausted. */
  function AtEnd(s: seq<Word>): (r: Load<()>)
    ensures r.Loaded? <==> s == []
    ensures r.Exited? ==> r.reason == NotAtEnd
  {
    if s == [] then Loaded(()) else Exited(NotAtEnd)
  }

  /** The loaded mesh. A vertex is an opaque record of 8 words. */
  datatype Model = Model(vertexCount: int, indexCount: int, vertices: seq<seq<Word>>, indices: seq<Word>)

  /** The loaded armature, with the offset arrays that `animatedLoad`
      computes as it goes. Matrices are 16-word records, transforms 8-word
      records. */
  datatype Armature = Armature(boneCount: int, ibms: seq<seq<Word>>,
                               frameCounts: seq<Word>, frameOffsets: seq<Word>,
                               timeStamps: seq<Word>, transforms: seq<seq<Word>>,
                               childCounts: seq<Word>, childOffsets: seq<Word>, hierarchy: seq<Word>)

  /** The loaded animated model: mesh, 8-word vertex weights, armature. */
  datatype Animated = Animated(model: Model, vertexWeights: seq<seq<Word>>, armature: Armature)

  /** The offsets computed from per-bone counts: offset i is the running
      `int` total of the counts before i, stored into an `unsigned`. */
  function Offsets(counts: seq<Word>): (r: seq<Word>)
    ensures |r| == |counts|
    ensures forall i :: 0 <= i < |counts| ==> r[i] == UInt32(Sum(counts[..i]))
  {
    seq(|counts|, i requires 0 <= i < |counts| => UInt32(Sum(counts[..i])) as Word)
  }

  /** The stream `modelLoad` accepts (src/res.c:14-26). */
  function DecodeModel(s: seq<Word>): (r: Load<Model>)
    ensures r.Loaded? ==> WellSized(r.value)
  {
    var vc :- Take(s, 1);
    var ic :- Take(vc.rest, 1);
    var vertexCount, indexCount := Int32(vc.words[0]), Int32(ic.words[0]);
    var nv :- Alloc(vertexCount);
    var ni :- Alloc(indexCount);
    var vs :- Take(ic.rest, 8 * nv);
    var ix :- Take(vs.rest, ni);
    var _ :- AtEnd(ix.rest);
    RecordsOfFlat(vs.words, 8, nv);
    Loaded(Model(vertexCount, indexCount, Records(vs.words, 8), ix.words))
  }

  /** The counts are non-negative and the arrays hold exactly that many
      records of the right size. */
  ghost predicate WellSized(m: Model)
  {
    && 0 <= m.vertexCount < TWO_31 && 0 <= m.indexCount < TWO_31
    && |m.vertices| == m.vertexCount && |m.indices| == m.indexCount
    && forall i :: 0 <= i < |m.vertices| ==> |m.vertices[i]| == 8
  }

  /** The words of a `.model` file holding m. */
  function ModelWords(m: Model): seq<Word>
  {
    [UInt32(m.vertexCount) as Word] + ([UInt32(m.indexCount) as Word] + (Concat(m.vertices) + m.indices))
  }

  /** The frame table of `animatedLoad` (src/res.c:93-110): one count per
      bone, the running offsets, then as many time stamps and 8-word
      transforms as the wrapped `int` total says. */
  datatype Frames = Frames(counts: seq<Word>, offsets: seq<Word>, timeStamps: seq<Word>, transforms: seq<seq<Word>>)

  function DecodeFrames(s: seq<Word>, boneCount: nat): (r: Load<(Frames, seq<Word>)>)
    ensures r.Loaded? ==> |r.value.0.counts| == boneCount && r.value.0.offsets == Offsets(r.value.0.counts)
    ensures r.Loaded? ==> |r.value.0.timeStamps| == |r.value.0.transforms| == Int32(Sum(r.value.0.counts))
    ensures r.Loaded? ==> forall i :: 0 <= i < |r.value.0.transforms| ==> |r.value.0.transforms[i]| == 8
  {
    var fc :- Take(s, boneCount);
    var nf :- Alloc(Int32(Sum(fc.words)));
    var ts :- Take(fc.rest, nf);
    var tr :- Take(ts.rest, 8 * nf);
    RecordsOfFlat(tr.words, 8, nf);
    Loaded((Frames(fc.words, Offsets(fc.words), ts.words, Records(tr.words, 8)), tr.rest))
  }

  /** The child table (src/res.c:112-126): one count per bone, the running
      offsets, then the hierarchy of as many ids as the wrapped total says. */
  datatype Children = Children(counts: seq<Word>, offsets: seq<Word>, hierarchy: seq<Word>)

  function DecodeChildren(s: seq<Word>, boneCount: nat): (r: Load<(Children, seq<Word>)>)
    ensures r.Loaded? ==> |r.value.0.counts| == boneCount && r.value.0.offsets == Offsets(r.value.0.counts)
    ensures r.Loaded? ==> |r.value.0.hierarchy| == Int32(Sum(r.value.0.counts))
  {
    var cc :- Take(s, boneCount);
    var nc :- Alloc(Int32(Sum(cc.words)));
    var h :- Take(cc.rest, nc);
    Loaded((Children(cc.words, Offsets(cc.words), h.words), h.rest))
  }

  /** The three counts at the head of the stream (src/res.c:75-77). */
  datatype Header = Header(vertexCount: int, indexCount: int, boneCount: int)

  function DecodeHeader(s: seq<Word>): (r: Load<(Header, seq<Word>)>)
    ensures r.Loaded? ==> -TWO_31 <= r.value.0.vertexCount < TWO_31 && -TWO_31 <= r.value.0.indexCount < TWO_31
    ensures r.Loaded? ==> -TWO_31 <= r.value.0.boneCount < TWO_31
  {
    var vc :- Take(s, 1);
    var ic :- Take(vc.rest, 1);
    var bc :- Take(ic.rest, 1);
    Loaded((Header(Int32(vc.words[0]), Int32(ic.words[0]), Int32(bc.words[0])), bc.rest))
  }

  /** The mesh and skin arrays (src/res.c:79-91): vertices and indices,
      then one 8-word weight record per vertex and one 16-word matrix per
      bone. */
  datatype Skinned = Skinned(model: Model, vertexWeights: seq<seq<Word>>, ibms: seq<seq<Word>>)

  /** The arrays as long as the header's counts say. */
  ghost predicate SkinnedFit(sk: Skinned, h: Header)
  {
    && 0 <= h.vertexCount && 0 <= h.indexCount && 0 <= h.boneCount
    && sk.model.vertexCount == h.vertexCount && sk.model.indexCount == h.indexCount
    && |sk.model.vertices| == h.vertexCount && |sk.model.indices| == h.indexCount
    && (forall i :: 0 <= i < |sk.model.vertices| ==> |sk.model.vertices[i]| == 8)
    && |sk.vertexWeights| == h.vertexCount && (forall i :: 0 <= i < |sk.vertexWeights| ==> |sk.vertexWeights[i]| == 8)
    && |sk.ibms| == h.boneCount && (forall i :: 0 <= i < |sk.ibms| ==> |sk.ibms[i]| == 16)
  }

  function DecodeSkinned(s: seq<Word>, h: Header): (r: Load<(Skinned, seq<Word>)>)
    ensures r.Loaded? ==> SkinnedFit(r.value.0, h)
  {
    var nv :- Alloc(h.vertexCount);
    var ni :- Alloc(h.indexCount);
    var vs :- Take(s, 8 * nv);
    var ix :- Take(vs.rest, ni);
    var nb :- Alloc(h.boneCount);
    var ws :- Take(ix.rest, 8 * nv);
    var ms :- Take(ws.rest, 16 * nb);
    RecordsOfFlat(vs.words, 8, nv);
    RecordsOfFlat(ws.words, 8, nv);
    RecordsOfFlat(ms.words, 16, nb);
    Loaded((Skinned(Model(h.vertexCount, h.indexCount, Records(vs.words, 8), ix.words),
                    Records(ws.words, 8), Records(ms.words, 16)), ms.rest))
  }

  /** The stream `animatedLoad` accepts (src/res.c:75-128). */
  function DecodeAnimated(s: seq<Word>): (r: Load<Animated>)
    ensures r.Loaded? ==> WellFormed(r.value)
  {
    var h :- DecodeHeader(s);
    var sk :- DecodeSkinned(h.1, h.0);
    var frames :- DecodeFrames(sk.1, h.0.boneCount);
    var children :- DecodeChildren(frames.1, h.0.boneCount);
    var _ :- AtEnd(children.1);
    Loaded(Animated(sk.0.model, sk.0.vertexWeights,
                    Armature(h.0.boneCount, sk.0.ibms,
                             frames.0.counts, frames.0.offsets, frames.0.timeStamps, frames.0.transforms,
                             children.0.counts, children.0.offsets, children.0.hierarchy)))
  }

  function HeaderOf(a: Animated): Header
  {
    Header(a.model.vertexCount, a.model.indexCount, a.armature.boneCount)
  }

  function SkinnedOf(a: Animated): Skinned
  {
    Skinned(a.model, a.vertexWeights, a.armature.ibms)
  }

  function FramesOf(arm: Armature): Frames
  {
    Frames(arm.frameCounts, arm.frameOffsets, arm.timeStamps, arm.transforms)
  }

  function ChildrenOf(arm: Armature): Children
  {
    Children(arm.childCounts, arm.childOffsets, arm.hierarchy)
  }

  /** The frame table read for boneCount bones. */
  ghost predicate FramesFit(f: Frames, boneCount: nat)
  {
    && |f.counts| == boneCount && f.offsets == Offsets(f.counts)
    && |f.timeStamps| == |f.transforms| == Int32(Sum(f.counts))
    && forall i :: 0 <= i < |f.transforms| ==> |f.transforms[i]| == 8
  }

  /** The child table read for boneCount bones. */
  ghost predicate ChildrenFit(c: Children, boneCount: nat)
  {
    |c.counts| == boneCount && c.offsets == Offsets(c.counts) && |c.hierarchy| == Int32(Sum(c.counts))
  }

  /** What `animatedLoad` can return: counts that fit an `int` and are not
      negative, every array as long as the counts read before it say, and
      the offsets the running totals of the counts. */
  ghost predicate WellFormed(a: Animated)
  {
    && a.model.vertexCount < TWO_31 && a.model.indexCount < TWO_31 && a.armature.boneCount < TWO_31
    && SkinnedFit(SkinnedOf(a), HeaderOf(a))
    && FramesFit(FramesOf(a.armature), a.armature.boneCount)
    && ChildrenFit(ChildrenOf(a.armature), a.armature.boneCount)
  }

  /** An open file: the words not read yet. */
  class WordFile {
    var unread: seq<Word>

    /** `fopen` and `file_check`, on a file that opens. */
    constructor(s: seq<Word>)
      ensures unread == s
    {
      unread := s;
    }

    /** `safe_read(buffer, 4, n, file)`: the next n words, or the exit. */
    method Read(n: nat) returns (r: Load<seq<Word>>)
      modifies this
      ensures Take(old(unread), n).Loaded? ==>
        r == Loaded(Take(old(unread), n).value.words) && unread == Take(old(unread), n).value.rest
      ensures Take(old(unread), n).Exited? ==> r == Exited(ShortRead)
    {
      if n > |unread| {
        return Exited(ShortRead);
      }
      r := Loaded(unread[..n]);
      unread := unread[n..];
    }

    /** `eof_check`: `fgetc` must find nothing left. */
    method CheckEnd() returns (r: Load<()>)
      ensures r == AtEnd(unread)
    {
      if unread != [] {
        return Exited(NotAtEnd);
      }
      r := Loaded(());
    }
  }

  /** `modelLoad` (src/res.c:8-30). */
  method ModelLoad(s: seq<Word>) returns (r: Load<Model>)
    ensures r == DecodeModel(s)
  {
    var file := new WordFile(s);
    var vc := file.Read(1);
    if vc.Exited? {
      return Exited(vc.reason);
    }
    var ic := file.Read(1);
    if ic.Exited? {
      return Exited(ic.reason);
    }
    var vertexCount, indexCount := Int32(vc.value[0]), Int32(ic.value[0]);
    if vertexCount < 0 || indexCount < 0 {
      return Exited(BadAlloc);
    }
    var vertices := file.Read(8 * vertexCount);
    if vertices.Exited? {
      return Exited(vertices.reason);
    }
    var indices := file.Read(indexCount);
    if indices.Exited? {
      return Exited(indices.reason);
    }
    var end := file.CheckEnd();
    if end.Exited? {
      return Exited(end.reason);
    }
    RecordsOfFlat(vertices.value, 8, vertexCount);
    r := Loaded(Model(vertexCount, indexCount, Records(vertices.value, 8), indices.value));
  }

  /** The running-total loops of `animatedLoad` (src/res.c:99-103 and
      118-122): `offsets[i] = total; total += counts[i];`, where `total` is
      an `int` that the unsigned additions wrap. */
  method FillOffsets(counts: seq<Word>, offsets: array<Word>) returns (total: int)
    requires offsets.Length == |counts|
    modifies offsets
    ensures offsets[..] == Offsets(counts)
    ensures total == Int32(Sum(counts))
  {
    total := 0;
    for i := 0 to |counts|
      invariant total == Int32(Sum(counts[..i]))
      invariant forall j :: 0 <= j < i ==> offsets[j] == UInt32(Sum(counts[..j]))
    {
      Int32Accumulate(Sum(counts[..i]), counts[i]);
      offsets[i] := UInt32(total) as Word;
      assert counts[..i + 1][..i] == counts[..i];
      total := Int32(total + counts[i]);
    }
    assert counts[..|counts|] == counts;
  }

  /** `animatedLoad` (src/res.c:68-132). */
  method AnimatedLoad(s: seq<Word>) returns (r: Load<Animated>)
    ensures r == DecodeAnimated(s)
  {
    var file := new WordFile(s);
    var vc := file.Read(1);
    if vc.Exited? {
      return Exited(vc.reason);
    }
    var ic := file.Read(1);
    if ic.Exited? {
      return Exited(ic.reason);
    }
    var bc := file.Read(1);
    if bc.Exited? {
      return Exited(bc.reason);
    }
    var vertexCount, indexCount, boneCount := Int32(vc.value[0]), Int32(ic.value[0]), Int32(bc.value[0]);
    if vertexCount < 0 || indexCount < 0 {
      return Exited(BadAlloc);
    }
    var vertices := file.Read(8 * vertexCount);
    if vertices.Exited? {
      return Exited(vertices.reason);
    }
    var indices := file.Read(indexCount);
    if indices.Exited? {
      return Exited(indices.reason);
    }
    if boneCount < 0 {
      return Exited(BadAlloc);
    }
    var weights := file.Read(8 * vertexCount);
    if weights.Exited? {
      return Exited(weights.reason);
    }
    var ibms := file.Read(16 * boneCount);
    if ibms.Exited? {
      return Exited(ibms.reason);
    }
    var frames := ReadFrames(file, boneCount);
    if frames.Exited? {
      return Exited(frames.reason);
    }
    var children := ReadChildren(file, boneCount);
    if children.Exited? {
      return Exited(children.reason);
    }
    var end := file.CheckEnd();
    if end.Exited? {
      return Exited(end.reason);
    }
    RecordsOfFlat(vertices.value, 8, vertexCount);
    RecordsOfFlat(weights.value, 8, vertexCount);
    r := Loaded(Animated(Model(vertexCount, indexCount, Records(vertices.value, 8), indices.value),
                         Records(weights.value, 8),
                         Armature(boneCount, Records(ibms.value, 16),
                                  frames.value.counts, frames.value.offsets, frames.value.timeStamps, frames.value.transforms,
                                  children.value.counts, children.value.offsets, children.value.hierarchy)));
  }

  /** The frame part of `animatedLoad` (src/res.c:93-110). */
  method ReadFrames(file: WordFile, boneCount: nat) returns (r: Load<Frames>)
    modifies file
    ensures DecodeFrames(old(file.unread), boneCount).Loaded? ==>
      r == Loaded(DecodeFrames(old(file.unread), boneCount).value.0) && file.unread == DecodeFrames(old(file.unread), boneCount).value.1
    ensures DecodeFrames(old(file.unread), boneCount).Exited? ==> r == Exited(DecodeFrames(old(file.unread), boneCount).reason)
  {
    var offsets := new Word[boneCount];
    var counts := file.Read(boneCount);
    if counts.Exited? {
      return Exited(counts.reason);
    }
    var frameCount := FillOffsets(counts.value, offsets);
    if frameCount < 0 {
      return Exited(BadAlloc);
    }
    var timeStamps := file.Read(frameCount);
    if timeStamps.Exited? {
      return Exited(timeStamps.reason);
    }
    var transforms := file.Read(8 * frameCount);
    if transforms.Exited? {
      return Exited(transforms.reason);
    }
    RecordsOfFlat(transforms.value, 8, frameCount);
    r := Loaded(Frames(counts.value, offsets[..], timeStamps.value, Records(transforms.value, 8)));
  }

  /** The child part of `animatedLoad` (src/res.c:112-126). */
  method ReadChildren(file: WordFile, boneCount: nat) returns (r: Load<Children>)
    modifies file
    ensures DecodeChildren(old(file.unread), boneCount).Loaded? ==>
      r == Loaded(DecodeChildren(old(file.unread), boneCount).value.0) && file.unread == DecodeChildren(old(file.unread), boneCount).value.1
    ensures DecodeChildren(old(file.unread), boneCount).Exited? ==> r == Exited(DecodeChildren(old(file.unread), boneCount).reason)
  {
    var offsets := new Word[boneCount];
    var counts := file.Read(boneCount);
    if counts.Exited? {
      return Exited(counts.reason);
    }
    var childrenCount := FillOffsets(counts.value, offsets);
    if childrenCount < 0 {
      return Exited(BadAlloc);
    }
    var hierarchy := file.Read(childrenCount);
    if hierarchy.Exited? {
      return Exited(hierarchy.reason);
    }
    r := Loaded(Children(counts.value, offsets[..], hierarchy.value));
  }

  /** Reading the words in front of the rest returns them. */
  lemma TakeAppend(x: seq<Word>, rest: seq<Word>)
    ensures Take(x + rest, |x|) == Loaded(Read(x, rest))
  {
    assert (x + rest)[..|x|] == x && (x + rest)[|x|..] == rest;
  }

  /** A count written as a word is read back as the count. */
  lemma CountWord(n: int)
    requires 0 <= n < TWO_31
    ensures UInt32(n) == n && Int32(UInt32(n)) == n
  {
  }

  /** A word read as an `int` and stored back as an `unsigned` is the word. */
  lemma WordOfCount(w: Word)
    ensures UInt32(Int32(w)) == w
  {
    Int32Accumulate(w, 0);
  }

  /** `modelLoad` accepts the words of every well-sized model and returns
      that model. */
  lemma ModelRoundTrip(m: Model)
    requires WellSized(m)
    ensures DecodeModel(ModelWords(m)) == Loaded(m)
  {
    CountWord(m.vertexCount);
    CountWord(m.indexCount);
    RecordsOfConcat(m.vertices, 8);
    var tail := Concat(m.vertices) + m.indices;
    TakeAppend([UInt32(m.vertexCount) as Word], [UInt32(m.indexCount) as Word] + tail);
    TakeAppend([UInt32(m.indexCount) as Word], tail);
    TakeAppend(Concat(m.vertices), m.indices);
    TakeAppend(m.indices, []);
    assert m.indices + [] == m.indices;
  }

  /** A stream `modelLoad` accepts is exactly the words of what it returns:
      nothing is skipped and nothing is left over. */
  lemma ModelExact(s: seq<Word>)
    requires DecodeModel(s).Loaded?
    ensures ModelWords(DecodeModel(s).value) == s
  {
    var m := DecodeModel(s).value;
    var vc := Take(s, 1).value;
    var ic := Take(vc.rest, 1).value;
    var vs := Take(ic.rest, 8 * m.vertexCount).value;
    WordOfCount(vc.words[0]);
    WordOfCount(ic.words[0]);
    RecordsOfFlat(vs.words, 8, m.vertexCount);
    assert vc.words == [UInt32(m.vertexCount) as Word];
    assert ic.words == [UInt32(m.indexCount) as Word];
  }

  /** Reading from a stream with more words after it reads the same words. */
  lemma TakeExtend(s: seq<Word>, e: seq<Word>, n: nat)
    requires n <= |s|
    ensures Take(s + e, n) == Loaded(Read(Take(s, n).value.words, Take(s, n).value.rest + e))
  {
    assert (s + e)[..n] == s[..n] && (s + e)[n..] == s[n..] + e;
  }

  /** Any word after an accepted `.model` stream makes `eof_check` exit. */
  lemma ModelTrailing(s: seq<Word>, e: seq<Word>)
    requires DecodeModel(s).Loaded? && e != []
    ensures DecodeModel(s + e) == Exited(NotAtEnd)
  {
    var m := DecodeModel(s).value;
    var vc := Take(s, 1).value;
    TakeExtend(s, e, 1);
    var ic := Take(vc.rest, 1).value;
    TakeExtend(vc.rest, e, 1);
    var vs := Take(ic.rest, 8 * m.vertexCount).value;
    TakeExtend(ic.rest, e, 8 * m.vertexCount);
    TakeExtend(vs.rest, e, m.indexCount);
    assert Take(vs.rest, m.indexCount).value.rest == [];
  }

  /** Reading from a stream cut after j words: the same words when they fit
      in the cut, a short read otherwise. */
  lemma TakeCut(s: seq<Word>, j: nat, n: nat)
    requires j <= |s| && n <= |s|
    ensures n <= j ==> Take(s[..j], n) == Loaded(Read(s[..n], s[n..j]))
    ensures n > j ==> Take(s[..j], n) == Exited(ShortRead)
  {
    if n <= j {
      assert s[..j][..n] == s[..n] && s[..j][n..] == s[n..j];
    }
  }

  /** Any accepted `.model` stream cut short makes a `safe_read` exit. */
  lemma ModelTruncated(s: seq<Word>, j: nat)
    requires DecodeModel(s).Loaded? && j < |s|
    ensures DecodeModel(s[..j]) == Exited(ShortRead)
  {
    var m := DecodeModel(s).value;
    var nv, ni := 8 * m.vertexCount, m.indexCount;
    TakeCut(s, j, 1);
    if j >= 1 {
      var t := s[1..];
      assert s[1..j] == t[..j - 1];
      TakeCut(t, j - 1, 1);
      if j >= 2 {
        var u := t[1..];
        assert t[1..j - 1] == u[..j - 2];
        TakeCut(u, j - 2, nv);
        if j >= 2 + nv {
          var w := u[nv..];
          assert u[nv..j - 2] == w[..j - 2 - nv];
          TakeCut(w, j - 2 - nv, ni);
        }
      }
    }
  }

  function HeaderWords(h: Header): seq<Word>
  {
    [UInt32(h.vertexCount) as Word] + ([UInt32(h.indexCount) as Word] + [UInt32(h.boneCount) as Word])
  }

  function SkinnedWords(sk: Skinned): seq<Word>
  {
    Concat(sk.model.vertices) + (sk.model.indices + (Concat(sk.vertexWeights) + Concat(sk.ibms)))
  }

  function FramesWords(f: Frames): seq<Word>
  {
    f.counts + (f.timeStamps + Concat(f.transforms))
  }

  function ChildrenWords(c: Children): seq<Word>
  {
    c.counts + c.hierarchy
  }

  /** The words of an animated-model file holding a, in the order
      `animatedLoad` reads them. */
  function AnimatedWords(a: Animated): seq<Word>
  {
    HeaderWords(HeaderOf(a)) + (SkinnedWords(SkinnedOf(a)) +
      (FramesWords(FramesOf(a.armature)) + ChildrenWords(ChildrenOf(a.armature))))
  }

  lemma HeaderRoundTrip(h: Header, rest: seq<Word>)
    requires 0 <= h.vertexCount < TWO_31 && 0 <= h.indexCount < TWO_31 && 0 <= h.boneCount < TWO_31
    ensures DecodeHeader(HeaderWords(h) + rest) == Loaded((h, rest))
  {
    CountWord(h.vertexCount);
    CountWord(h.indexCount);
    CountWord(h.boneCount);
    var v, i, b := [UInt32(h.vertexCount) as Word], [UInt32(h.indexCount) as Word], [UInt32(h.boneCount) as Word];
    assert HeaderWords(h) + rest == v + (i + (b + rest));
    TakeAppend(v, i + (b + rest));
    TakeAppend(i, b + rest);
    TakeAppend(b, rest);
  }

  lemma SkinnedRoundTrip(sk: Skinned, h: Header, rest: seq<Word>)
    requires SkinnedFit(sk, h)
    ensures DecodeSkinned(SkinnedWords(sk) + rest, h) == Loaded((sk, rest))
  {
    RecordsOfConcat(sk.model.vertices, 8);
    RecordsOfConcat(sk.vertexWeights, 8);
    RecordsOfConcat(sk.ibms, 16);
    var v, i, w, m := Concat(sk.model.vertices), sk.model.indices, Concat(sk.vertexWeights), Concat(sk.ibms);
    assert SkinnedWords(sk) + rest == v + (i + (w + (m + rest)));
    TakeAppend(v, i + (w + (m + rest)));
    TakeAppend(i, w + (m + rest));
    TakeAppend(w, m + rest);
    TakeAppend(m, rest);
  }

  lemma FramesRoundTrip(f: Frames, boneCount: nat, rest: seq<Word>)
    requires FramesFit(f, boneCount)
    ensures DecodeFrames(FramesWords(f) + rest, boneCount) == Loaded((f, rest))
  {
    var t := Concat(f.transforms);
    RecordsOfConcat(f.transforms, 8);
    var tail := f.timeStamps + (t + rest);
    assert FramesWords(f) + rest == f.counts + tail;
    TakeAppend(f.counts, tail);
    TakeAppend(f.timeStamps, t + rest);
    TakeAppend(t, rest);
    assert f == Frames(f.counts, Offsets(f.counts), f.timeStamps, Records(t, 8));
  }

  lemma ChildrenRoundTrip(c: Children, boneCount: nat, rest: seq<Word>)
    requires ChildrenFit(c, boneCount)
    ensures DecodeChildren(ChildrenWords(c) + rest, boneCount) == Loaded((c, rest))
  {
    assert ChildrenWords(c) + rest == c.counts + (c.hierarchy + rest);
    TakeAppend(c.counts, c.hierarchy + rest);
    TakeAppend(c.hierarchy, rest);
  }

  /** `animatedLoad` on the words of a well-formed animated model followed
      by more words: it returns the model when there are none, and
      `eof_check` exits otherwise. */
  lemma AnimatedFollowedBy(a: Animated, rest: seq<Word>)
    requires WellFormed(a)
    ensures DecodeAnimated(AnimatedWords(a) + rest) == if rest == [] then Loaded(a) else Exited(NotAtEnd)
  {
    var h, sk, f, c := HeaderOf(a), SkinnedOf(a), FramesOf(a.armature), ChildrenOf(a.armature);
    var cw := ChildrenWords(c) + rest;
    var fw := FramesWords(f) + cw;
    var sw := SkinnedWords(sk) + fw;
    assert AnimatedWords(a) + rest == HeaderWords(h) + sw;
    HeaderRoundTrip(h, sw);
    SkinnedRoundTrip(sk, h, fw);
    FramesRoundTrip(f, h.boneCount, cw);
    ChildrenRoundTrip(c, h.boneCount, rest);
  }

  /** `animatedLoad` accepts the words of every well-formed animated model
      and returns that model. */
  lemma AnimatedRoundTrip(a: Animated)
    requires WellFormed(a)
    ensures DecodeAnimated(AnimatedWords(a)) == Loaded(a)
  {
    AnimatedFollowedBy(a, []);
    assert AnimatedWords(a) + [] == AnimatedWords(a);
  }

  /** A well-formed model's file opens with its three counts and is as long
      as its counts say: 16 words per vertex (the vertex and its weights),
      one per index, 18 per bone (matrix, frame count, child count), 9 per
      key frame (time stamp and transform) and one per child id. */
  lemma AnimatedWordsLayout(a: Animated)
    requires WellFormed(a)
    ensures var w, arm := AnimatedWords(a), a.armature;
      && |w| == 3 + 16 * a.model.vertexCount + a.model.indexCount + 18 * arm.boneCount
                  + 9 * Int32(Sum(arm.frameCounts)) + Int32(Sum(arm.childCounts))
      && w[..3] == [a.model.vertexCount, a.model.indexCount, arm.boneCount]
  {
    var sk, f := SkinnedOf(a), FramesOf(a.armature);
    ConcatUniformLength(sk.model.vertices, 8);
    ConcatUniformLength(sk.vertexWeights, 8);
    ConcatUniformLength(sk.ibms, 16);
    ConcatUniformLength(f.transforms, 8);
    UInt32OfSmall(a.model.vertexCount);
    UInt32OfSmall(a.model.indexCount);
    UInt32OfSmall(a.armature.boneCount);
    assert AnimatedWords(a)[..3] == HeaderWords(HeaderOf(a));
  }

  lemma HeaderExact(s: seq<Word>)
    requires DecodeHeader(s).Loaded?
    ensures HeaderWords(DecodeHeader(s).value.0) + DecodeHeader(s).value.1 == s
  {
    var vc := Take(s, 1).value;
    var ic := Take(vc.rest, 1).value;
    var bc := Take(ic.rest, 1).value;
    WordOfCount(vc.words[0]);
    WordOfCount(ic.words[0]);
    WordOfCount(bc.words[0]);
    assert vc.words == [vc.words[0]] && ic.words == [ic.words[0]] && bc.words == [bc.words[0]];
    assert vc.words + (ic.words + (bc.words + bc.rest)) == s;
  }

  lemma SkinnedExact(s: seq<Word>, h: Header)
    requires DecodeSkinned(s, h).Loaded?
    ensures SkinnedWords(DecodeSkinned(s, h).value.0) + DecodeSkinned(s, h).value.1 == s
  {
    var nv, nb := h.vertexCount as nat, h.boneCount as nat;
    var vs := Take(s, 8 * nv).value;
    var ix := Take(vs.rest, h.indexCount as nat).value;
    var ws := Take(ix.rest, 8 * nv).value;
    var ms := Take(ws.rest, 16 * nb).value;
    RecordsOfFlat(vs.words, 8, nv);
    RecordsOfFlat(ws.words, 8, nv);
    RecordsOfFlat(ms.words, 16, nb);
    var sk := DecodeSkinned(s, h).value;
    assert sk.0.model.vertices == Records(vs.words, 8) && sk.0.model.indices == ix.words;
    assert sk.0.vertexWeights == Records(ws.words, 8) && sk.0.ibms == Records(ms.words, 16) && sk.1 == ms.rest;
    Regroup4(vs.words, ix.words, ws.words, ms.words, ms.rest, s);
  }

  /** Four reads in a row cover what they were read from. */
  lemma Regroup4(a: seq<Word>, b: seq<Word>, c: seq<Word>, d: seq<Word>, rest: seq<Word>, s: seq<Word>)
    requires a + (b + (c + (d + rest))) == s
    ensures a + (b + (c + d)) + rest == s
  {
  }

  lemma FramesExact(s: seq<Word>, boneCount: nat)
    requires DecodeFrames(s, boneCount).Loaded?
    ensures FramesWords(DecodeFrames(s, boneCount).value.0) + DecodeFrames(s, boneCount).value.1 == s
  {
    var fc := Take(s, boneCount).value;
    var n := Int32(Sum(fc.words));
    var ts := Take(fc.rest, n).value;
    var tr := Take(ts.rest, 8 * n).value;
    RecordsOfFlat(tr.words, 8, n);
    assert fc.words + (ts.words + (tr.words + tr.rest)) == s;
  }

  lemma ChildrenExact(s: seq<Word>, boneCount: nat)
    requires DecodeChildren(s, boneCount).Loaded?
    ensures ChildrenWords(DecodeChildren(s, boneCount).value.0) + DecodeChildren(s, boneCount).value.1 == s
  {
    var cc := Take(s, boneCount).value;
    var h := Take(cc.rest, Int32(Sum(cc.words))).value;
    assert cc.words + (h.words + h.rest) == s;
  }

  /** A stream `animatedLoad` accepts is exactly the words of what it
      returns: with the round trip, the accepted streams are exactly the
      words of the well-formed animated models. */
  lemma AnimatedExact(s: seq<Word>)
    requires DecodeAnimated(s).Loaded?
    ensures AnimatedWords(DecodeAnimated(s).value) == s
  {
    var a := DecodeAnimated(s).value;
    var h := DecodeHeader(s).value;
    var sk := DecodeSkinned(h.1, h.0).value;
    var f := DecodeFrames(sk.1, h.0.boneCount).value;
    var c := DecodeChildren(f.1, h.0.boneCount).value;
    HeaderExact(s);
    SkinnedExact(h.1, h.0);
    FramesExact(sk.1, h.0.boneCount);
    ChildrenExact(f.1, h.0.boneCount);
    assert HeaderOf(a) == h.0 && SkinnedOf(a) == sk.0 && FramesOf(a.armature) == f.0 && ChildrenOf(a.armature) == c.0;
    assert c.1 == [] && ChildrenWords(c.0) + [] == ChildrenWords(c.0);
  }

  /** Any word after an accepted animated stream makes `eof_check` exit. */
  lemma AnimatedTrailing(s: seq<Word>, e: seq<Word>)
    requires DecodeAnimated(s).Loaded? && e != []
    ensures DecodeAnimated(s + e) == Exited(NotAtEnd)
  {
    AnimatedExact(s);
    AnimatedFollowedBy(DecodeAnimated(s).value, e);
  }
}
