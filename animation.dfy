/** Playback of a loaded armature (src/animation.c): wrapping the animation
    clock, choosing the pair of keyframes around the current time for each
    bone, and walking the bone tree. Times are reals; the interpolation
    between the two keyframes and the matrix products are not modelled. */
module Animation {
  import opened Common
  import opened Stream
  import opened Reader

  /** The playing animation: the loop's start and end times, the current
      time and the play count. */
  class Clip {
    var start: real
    var end: real
    var time: real
    var iteration: int

    constructor(start: real, end: real)
      ensures this.start == start && this.end == end && time == 0.0 && iteration == 0
    {
      this.start := start;
      this.end := end;
      time := 0.0;
      iteration := 0;
    }

    /** `updateAnimation` (src/animation.c:4-18): advance by dt, then take
        whole loops off until the time is inside the loop again; the result
        says whether a loop was taken off. The loop stops only when the
        loop time is positive or the time already fits. */
    method Update(dt: real) returns (looped: bool)
      requires end - start > 0.0 || time + dt <= end - start
      modifies this
      ensures start == old(start) && end == old(end) && iteration == old(iteration)
      ensures time == Wrapped(old(time) + dt, end - start)
      ensures looped <==> old(time) + dt > end - start
    {
      looped := false;
      time := time + dt;
      var loopTime := end - start;
      while time > loopTime
        invariant start == old(start) && end == old(end) && iteration == old(iteration)
        invariant loopTime > 0.0 || time <= loopTime
        invariant Wrapped(time, loopTime) == Wrapped(old(time) + dt, loopTime)
        invariant looped ==> old(time) + dt > loopTime
        invariant !looped ==> time == old(time) + dt
        decreases LoopsLeft(time, loopTime)
      {
        LoopsLeftStep(time, loopTime);
        time := time - loopTime;
        looped := true;
      }
    }
  }

  /** How many loops a time is past the loop end, as a real that drops by
      exactly one per subtraction. */
  function LoopsLeft(t: real, loopTime: real): real
  {
    if loopTime > 0.0 then (t - loopTime) / loopTime else 0.0
  }

  lemma LoopsLeftStep(t: real, loopTime: real)
    requires loopTime > 0.0 && t > loopTime
    ensures 0.0 <= LoopsLeft(t, loopTime) && LoopsLeft(t - loopTime, loopTime) == LoopsLeft(t, loopTime) - 1.0
  {
    var a := t - loopTime;
    assert loopTime / loopTime == 1.0;
    assert (a - loopTime) / loopTime == a / loopTime - loopTime / loopTime;
  }

  /** The time `updateAnimation` leaves: t with loops taken off while it
      is past the loop time. The result is never past the loop time, and
      a time that was past it ends up positive. */
  function Wrapped(t: real, loopTime: real): (r: real)
    requires loopTime > 0.0 || t <= loopTime
    ensures r <= loopTime
    ensures t > loopTime ==> 0.0 < r
    decreases LoopsLeft(t, loopTime)
  {
    if t <= loopTime then t
    else
      LoopsLeftStep(t, loopTime);
      Wrapped(t - loopTime, loopTime)
  }

  /** A wrapped time differs from the original by a whole number of
      loops, at least one when the time was past the loop time. */
  lemma {:induction false} WrappedByWholeLoops(t: real, loopTime: real) returns (k: nat)
    requires loopTime > 0.0 || t <= loopTime
    ensures Wrapped(t, loopTime) == t - (k as real) * loopTime
    ensures k == 0 <==> t <= loopTime
    decreases LoopsLeft(t, loopTime)
  {
    if t <= loopTime {
      k := 0;
    } else {
      LoopsLeftStep(t, loopTime);
      var j := WrappedByWholeLoops(t - loopTime, loopTime);
      k := j + 1;
      assert (k as real) * loopTime == (j as real) * loopTime + loopTime;
    }
  }

  /** With a positive loop time, a time already inside the loop is left
      alone, and wrapping twice is wrapping once. */
  lemma WrappedIdempotent(t: real, loopTime: real)
    requires loopTime > 0.0
    ensures Wrapped(Wrapped(t, loopTime), loopTime) == Wrapped(t, loopTime)
  {
  }

  /** The keyframe pair `getBoneTransforms` settles on: indices into the
      armature's timestamps and transforms. */
  datatype Window = Window(first: nat, second: nat)

  /** Bone `index`'s frames lie inside the timestamp and transform arrays. */
  predicate KeyframesInRange(arm: Armature, index: int)
  {
    && 0 <= index < |arm.frameCounts| == |arm.frameOffsets|
    && arm.frameOffsets[index] + arm.frameCounts[index] <= |arm.timeStamps|
  }

  /** The timestamps of bone `index`, decoded from their stored words. */
  function Stamps(arm: Armature, index: int, float: Word -> real): (r: seq<real>)
    requires KeyframesInRange(arm, index)
    ensures |r| == arm.frameCounts[index]
    ensures forall j :: 0 <= j < |r| ==> r[j] == float(arm.timeStamps[arm.frameOffsets[index] + j])
  {
    var offset := arm.frameOffsets[index];
    seq(arm.frameCounts[index], j requires 0 <= j < arm.frameCounts[index] => float(arm.timeStamps[offset + j]))
  }

  /** Where the frame search of a bone with the given timestamps stops,
      counted from the bone's first frame: the first frame after frame 0
      whose time is past `time`, or the last frame when there is none. */
  function Later(stamps: seq<real>, time: real, from: nat): (k: nat)
    requires 1 <= from <= |stamps|
    requires forall j :: 1 <= j < from ==> stamps[j] <= time
    ensures k < |stamps| && (|stamps| > 1 ==> 1 <= k)
    ensures forall j :: 1 <= j < k ==> stamps[j] <= time
    ensures k < |stamps| - 1 ==> stamps[k] > time
    decreases |stamps| - from
  {
    if from >= |stamps| - 1 then |stamps| - 1
    else if stamps[from] > time then from
    else Later(stamps, time, from + 1)
  }

  /** `getBoneTransforms`' choice for bone `index` at `time`: nothing for a
      bone without frames (where the source stops on `NOT_IMPLEMENTED`);
      the only frame twice for a bone with one frame; otherwise the frame
      where the search stops and the frame just before it. */
  function WindowOf(arm: Armature, index: int, time: real, float: Word -> real): (r: Option<Window>)
    requires KeyframesInRange(arm, index)
  {
    var count := arm.frameCounts[index];
    var offset := arm.frameOffsets[index];
    if count == 0 then None
    else
      var k := Later(Stamps(arm, index, float), time, 1);
      Some(Window(offset + (if k == 0 then 0 else k - 1), offset + k))
  }

  /** The window's shape: none exactly for a bone without frames; the
      bone's first frame twice for a single frame; two neighbouring frames
      of the bone otherwise. */
  lemma WindowShape(arm: Armature, index: int, time: real, float: Word -> real)
    requires KeyframesInRange(arm, index)
    ensures var r := WindowOf(arm, index, time, float);
      && (r.None? <==> arm.frameCounts[index] == 0)
      && (arm.frameCounts[index] == 1 ==> r == Some(Window(arm.frameOffsets[index], arm.frameOffsets[index])))
      && (arm.frameCounts[index] >= 2 ==> r.Some? && r.value.second == r.value.first + 1)
      && (r.Some? ==> arm.frameOffsets[index] <= r.value.first <= r.value.second < arm.frameOffsets[index] as int + arm.frameCounts[index])
  {
  }

  /** The window brackets the time: every frame of the bone after its
      first and before `second` is not past `time`, and `second` is past it
      unless it is the bone's last frame. So when the bone's first frame is
      not past `time` and its last frame is, `time` lies between the two
      frames of the window. */
  lemma WindowBrackets(arm: Armature, index: int, time: real, float: Word -> real)
    requires KeyframesInRange(arm, index) && arm.frameCounts[index] >= 2
    ensures var w := WindowOf(arm, index, time, float).value;
      var offset := arm.frameOffsets[index];
      && (forall j :: offset < j < w.second ==> float(arm.timeStamps[j]) <= time)
      && (w.second < offset + arm.frameCounts[index] - 1 ==> float(arm.timeStamps[w.second]) > time)
      && (float(arm.timeStamps[offset]) <= time < float(arm.timeStamps[offset + arm.frameCounts[index] - 1]) ==>
            float(arm.timeStamps[w.first]) <= time < float(arm.timeStamps[w.second]))
  {
    var offset := arm.frameOffsets[index];
    var stamps := Stamps(arm, index, float);
    var k := Later(stamps, time, 1);
    forall j | offset < j < offset + k
      ensures float(arm.timeStamps[j]) <= time
    {
      assert stamps[j - offset] <= time;
    }
  }

  /** `getBoneTransforms`' search (src/animation.c:51-78): step a pair of
      offsets through the bone's frames until a frame's time is past
      `time`. */
  method BoneWindow(arm: Armature, index: int, time: real, float: Word -> real) returns (r: Option<Window>)
    requires KeyframesInRange(arm, index)
    ensures r == WindowOf(arm, index, time, float)
  {
    var frameCount: int := arm.frameCounts[index];
    if frameCount == 0 {
      return None;
    }
    var offset: int := arm.frameOffsets[index];
    ghost var stamps := Stamps(arm, index, float);
    var firstOff: int := offset;
    var secondOff: int := offset;
    var i: int := 1;
    while i < frameCount
      invariant 1 <= i <= frameCount
      invariant secondOff == offset + i - 1
      invariant firstOff == if i == 1 then offset else secondOff - 1
      invariant forall j :: 1 <= j < i ==> stamps[j] <= time
    {
      firstOff := secondOff;
      secondOff := secondOff + 1;
      if float(arm.timeStamps[offset + i]) > time {
        assert stamps[i] > time;
        assert Later(stamps, time, 1) == i;
        return Some(Window(firstOff, secondOff));
      }
      i := i + 1;
    }
    assert Later(stamps, time, 1) == frameCount - 1;
    r := Some(Window(firstOff, secondOff));
  }

  /** Every bone's frames lie inside the timestamp array. */
  predicate PoseInRange(arm: Armature)
  {
    && 0 <= arm.boneCount <= |arm.frameCounts|
    && forall i :: 0 <= i < arm.boneCount ==> KeyframesInRange(arm, i)
  }

  /** `computePoseTransforms` (src/animation.c:85-94): one pass over the
      bones, writing bone i's pose into `transforms[i]`. A pose is stood for
      by the keyframe window it is blended from. The pass stops at the first
      bone without frames, where the source stops on `NOT_IMPLEMENTED`;
      `posed` is the number of bones posed. */
  method ComputePose(arm: Armature, transforms: array<Window>, time: real, float: Word -> real) returns (posed: nat)
    requires PoseInRange(arm) && arm.boneCount <= transforms.Length
    modifies transforms
    ensures posed <= arm.boneCount
    ensures forall i :: 0 <= i < posed ==> WindowOf(arm, i, time, float) == Some(transforms[i])
    ensures forall i :: 0 <= i < posed ==> arm.frameCounts[i] != 0
    ensures posed < arm.boneCount ==> arm.frameCounts[posed] == 0
    ensures forall i :: posed <= i < transforms.Length ==> transforms[i] == old(transforms[i])
  {
    posed := 0;
    while posed < arm.boneCount
      invariant posed <= arm.boneCount
      invariant forall i :: 0 <= i < posed ==> WindowOf(arm, i, time, float) == Some(transforms[i])
      invariant forall i :: 0 <= i < posed ==> arm.frameCounts[i] != 0
      invariant forall i :: posed <= i < transforms.Length ==> transforms[i] == old(transforms[i])
    {
      var window := BoneWindow(arm, posed, time, float);
      if window.None? {
        return;
      }
      transforms[posed] := window.value;
      posed := posed + 1;
    }
  }

  /** The armature's child table fits: bone b's children are the
      `childCounts[b]` entries of `hierarchy` from `childOffsets[b]` on, and
      every entry names a bone. */
  predicate ChildrenInRange(arm: Armature)
  {
    && 0 <= arm.boneCount == |arm.childCounts| == |arm.childOffsets|
    && (forall b :: 0 <= b < arm.boneCount ==> arm.childOffsets[b] + arm.childCounts[b] <= |arm.hierarchy|)
    && (forall j :: 0 <= j < |arm.hierarchy| ==> arm.hierarchy[j] < arm.boneCount)
  }

  /** Child i of bone b. */
  function Child(arm: Armature, b: int, i: int): (c: nat)
    requires ChildrenInRange(arm) && 0 <= b < arm.boneCount && 0 <= i < arm.childCounts[b]
    ensures c < arm.boneCount
  {
    arm.hierarchy[arm.childOffsets[b] + i]
  }

  /** A ranking of the bones that drops from every bone to each of its
      children: what makes the recursion of `computeArmatureMatrices`
      finite. A child table with a cycle has none. */
  ghost predicate Ranked(arm: Armature, rank: seq<nat>)
  {
    && ChildrenInRange(arm) && |rank| == arm.boneCount
    && forall b, i :: 0 <= b < arm.boneCount && 0 <= i < arm.childCounts[b] ==> rank[Child(arm, b, i)] < rank[b]
  }

  /** The order in which `computeArmatureMatrices` writes the matrices of
      the bones below b: each child's bones in child order, then b. */
  ghost function PostOrder(arm: Armature, rank: seq<nat>, b: nat): (r: seq<nat>)
    requires Ranked(arm, rank) && b < arm.boneCount
    ensures forall x :: x in r ==> x < arm.boneCount
    decreases rank[b], 1
  {
    ChildOrder(arm, rank, b, arm.childCounts[b]) + [b]
  }

  /** The bones written below the first n children of b. */
  ghost function ChildOrder(arm: Armature, rank: seq<nat>, b: nat, n: nat): (r: seq<nat>)
    requires Ranked(arm, rank) && b < arm.boneCount && n <= arm.childCounts[b]
    ensures forall x :: x in r ==> x < arm.boneCount
    decreases rank[b], 0, n
  {
    if n == 0 then [] else ChildOrder(arm, rank, b, n - 1) + PostOrder(arm, rank, Child(arm, b, n - 1))
  }

  /** What the walk from bone b leaves in the output: each bone's matrix
      is stood for by the chain of bones whose local transforms were
      multiplied into it, from the outside in; the bone's own inverse bind
      matrix follows the last of them. A bone written twice keeps the last
      write. */
  function Writes(arm: Armature, rank: seq<nat>, base: seq<nat>, b: nat): map<nat, seq<nat>>
    requires Ranked(arm, rank) && b < arm.boneCount
    decreases rank[b], 1
  {
    ChildWrites(arm, rank, base + [b], b, arm.childCounts[b])[b := base + [b]]
  }

  function ChildWrites(arm: Armature, rank: seq<nat>, base: seq<nat>, b: nat, n: nat): map<nat, seq<nat>>
    requires Ranked(arm, rank) && b < arm.boneCount && n <= arm.childCounts[b]
    decreases rank[b], 0, n
  {
    if n == 0 then map[] else ChildWrites(arm, rank, base, b, n - 1) + Writes(arm, rank, base, Child(arm, b, n - 1))
  }

  /** An output array after the writes in m. */
  function Apply<T>(s: seq<T>, m: map<nat, T>): (r: seq<T>)
    ensures |r| == |s|
    ensures forall x :: 0 <= x < |s| ==> r[x] == if x in m then m[x] else s[x]
  {
    seq(|s|, x requires 0 <= x < |s| => if x in m then m[x] else s[x])
  }

  lemma ApplyTwice<T>(s: seq<T>, m: map<nat, T>, n: map<nat, T>)
    ensures Apply(Apply(s, m), n) == Apply(s, m + n)
  {
  }

  /** `computeArmatureMatrices` (src/animation.c:21-48): walk the children
      of bone `index` with its local transform multiplied in, then write the
      bone's own matrix. The ghost result is the order of the writes. */
  method ComputeArmature(arm: Armature, ghost rank: seq<nat>, base: seq<nat>, output: array<seq<nat>>, index: nat)
    returns (ghost order: seq<nat>)
    requires Ranked(arm, rank) && index < arm.boneCount <= output.Length
    modifies output
    ensures order == PostOrder(arm, rank, index)
    ensures output[..] == Apply(old(output[..]), Writes(arm, rank, base, index))
    decreases rank[index], 1
  {
    var local := base + [index];
    order := [];
    ghost var before := output[..];
    var count := arm.childCounts[index];
    for i := 0 to count
      invariant order == ChildOrder(arm, rank, index, i)
      invariant output[..] == Apply(before, ChildWrites(arm, rank, local, index, i))
    {
      var child := Child(arm, index, i);
      ghost var mid := output[..];
      var childOrder := ComputeArmature(arm, rank, local, output, child);
      order := order + childOrder;
      ApplyTwice(before, ChildWrites(arm, rank, local, index, i), Writes(arm, rank, local, child));
    }
    ghost var walked := output[..];
    output[index] := local;
    order := order + [index];
    assert output[..] == Apply(walked, map[index := local]);
    ApplyTwice(before, ChildWrites(arm, rank, local, index, count), map[index := local]);
  }

  /** Bone c is one of bone a's children. */
  predicate ChildOf(arm: Armature, a: int, c: int)
    requires ChildrenInRange(arm)
  {
    0 <= a < arm.boneCount && exists i :: 0 <= i < arm.childCounts[a] && Child(arm, a, i) == c
  }

  /** From position `from` on, each bone of the chain is a child of the one
      before it. */
  predicate ChainFrom(arm: Armature, w: seq<nat>, from: nat)
    requires ChildrenInRange(arm)
  {
    forall k :: from <= k < |w| - 1 ==> ChildOf(arm, w[k], w[k + 1])
  }

  /** w is `base` followed by a chain of children from bone `top` down to
      bone x. */
  predicate ChainBelow(arm: Armature, base: seq<nat>, top: nat, w: seq<nat>, x: nat)
    requires ChildrenInRange(arm)
  {
    && |w| > |base| && w[..|base|] == base && w[|base|] == top && w[|w| - 1] == x
    && ChainFrom(arm, w, |base|)
  }

  /** The walk from bone b writes exactly the bones of `PostOrder`, and the
      matrix of each is `base` times the local transforms along a chain of
      children that leads from b down to that bone. */
  lemma {:induction false} WritesCover(arm: Armature, rank: seq<nat>, base: seq<nat>, b: nat)
    requires Ranked(arm, rank) && b < arm.boneCount
    ensures forall x :: x in Writes(arm, rank, base, b) <==> x in PostOrder(arm, rank, b)
    ensures ChainsBelow(arm, base, b, Writes(arm, rank, base, b))
    decreases rank[b], 1
  {
    var n := arm.childCounts[b];
    var cw := ChildWrites(arm, rank, base + [b], b, n);
    ChildWritesCover(arm, rank, base + [b], b, n);
    assert (base + [b])[..|base|] == base;
    var m := Writes(arm, rank, base, b);
    forall x | x in m
      ensures ChainBelow(arm, base, b, m[x], x)
    {
      if x != b {
        assert x in cw && m[x] == cw[x];
      }
    }
  }

  /** The walk below the first n children of b writes exactly the bones of
      `ChildOrder`, each with `base` followed by a chain from b (the last
      bone of `base`) down to it. */
  lemma {:induction false} ChildWritesCover(arm: Armature, rank: seq<nat>, base: seq<nat>, b: nat, n: nat)
    requires Ranked(arm, rank) && b < arm.boneCount && n <= arm.childCounts[b]
    requires |base| > 0 && base[|base| - 1] == b
    ensures forall x :: x in ChildWrites(arm, rank, base, b, n) <==> x in ChildOrder(arm, rank, b, n)
    ensures ChainsBelow(arm, base[..|base| - 1], b, ChildWrites(arm, rank, base, b, n))
    decreases rank[b], 0, n
  {
    if n > 0 {
      var c := Child(arm, b, n - 1);
      ChildWritesCover(arm, rank, base, b, n - 1);
      WritesCover(arm, rank, base, c);
      ChildWritesStepOrder(arm, rank, base, b, n - 1, n);
      var mc, prev := Writes(arm, rank, base, c), ChildWrites(arm, rank, base, b, n - 1);
      ChainsExtend(arm, base, b, n - 1, mc);
      ChainsUnion(arm, base[..|base| - 1], b, prev, mc);
      assert ChildWrites(arm, rank, base, b, n) == prev + mc;
    }
  }

  /** One more child: the bones written are those written before and those
      written below the child. */
  lemma ChildWritesStepOrder(arm: Armature, rank: seq<nat>, base: seq<nat>, b: nat, k: nat, n: nat)
    requires Ranked(arm, rank) && b < arm.boneCount && n == k + 1 && n <= arm.childCounts[b]
    requires forall x :: x in ChildWrites(arm, rank, base, b, k) <==> x in ChildOrder(arm, rank, b, k)
    requires forall x :: x in Writes(arm, rank, base, Child(arm, b, k)) <==> x in PostOrder(arm, rank, Child(arm, b, k))
    ensures forall x :: x in ChildWrites(arm, rank, base, b, n) <==> x in ChildOrder(arm, rank, b, n)
  {
    var c := Child(arm, b, k);
    KeysConcat(ChildWrites(arm, rank, base, b, k), Writes(arm, rank, base, c), ChildOrder(arm, rank, b, k), PostOrder(arm, rank, c));
    assert ChildWrites(arm, rank, base, b, n) == ChildWrites(arm, rank, base, b, k) + Writes(arm, rank, base, c);
    assert ChildOrder(arm, rank, b, n) == ChildOrder(arm, rank, b, k) + PostOrder(arm, rank, c);
  }

  /** Maps whose keys are the elements of s and of t combine into a map
      whose keys are the elements of s + t. */
  lemma KeysConcat(p: map<nat, seq<nat>>, q: map<nat, seq<nat>>, s: seq<nat>, t: seq<nat>)
    requires forall x :: x in p <==> x in s
    requires forall x :: x in q <==> x in t
    ensures forall x :: x in p + q <==> x in s + t
  {
  }

  /** Every bone written in m has `base` and then a chain from `top`. */
  predicate ChainsBelow(arm: Armature, base: seq<nat>, top: nat, m: map<nat, seq<nat>>)
    requires ChildrenInRange(arm)
  {
    forall x :: x in m ==> ChainBelow(arm, base, top, m[x], x)
  }

  /** Chains from child k of b, after a base that ends with b, are chains
      from b. */
  lemma ChainsExtend(arm: Armature, base: seq<nat>, b: nat, k: nat, m: map<nat, seq<nat>>)
    requires ChildrenInRange(arm) && b < arm.boneCount && k < arm.childCounts[b]
    requires |base| > 0 && base[|base| - 1] == b
    requires ChainsBelow(arm, base, Child(arm, b, k), m)
    ensures ChainsBelow(arm, base[..|base| - 1], b, m)
  {
    forall x | x in m
      ensures ChainBelow(arm, base[..|base| - 1], b, m[x], x)
    {
      ChainExtend(arm, base, b, k, m[x], x);
    }
  }

  /** Two maps of chains from one bone combine into one. */
  lemma ChainsUnion(arm: Armature, base: seq<nat>, top: nat, p: map<nat, seq<nat>>, q: map<nat, seq<nat>>)
    requires ChildrenInRange(arm)
    requires ChainsBelow(arm, base, top, p) && ChainsBelow(arm, base, top, q)
    ensures ChainsBelow(arm, base, top, p + q)
  {
    forall x | x in p + q
      ensures ChainBelow(arm, base, top, (p + q)[x], x)
    {
      if x in q {
        assert (p + q)[x] == q[x];
      } else {
        assert (p + q)[x] == p[x];
      }
    }
  }

  /** A chain from child i of b, written after a base that ends with b,
      is a chain from b. */
  lemma ChainExtend(arm: Armature, base: seq<nat>, b: nat, i: nat, w: seq<nat>, x: nat)
    requires ChildrenInRange(arm) && b < arm.boneCount && i < arm.childCounts[b]
    requires |base| > 0 && base[|base| - 1] == b
    requires ChainBelow(arm, base, Child(arm, b, i), w, x)
    ensures ChainBelow(arm, base[..|base| - 1], b, w, x)
  {
    assert w[..|base|][..|base| - 1] == w[..|base| - 1];
    assert w[|base| - 1] == b;
    assert ChildOf(arm, w[|base| - 1], w[|base|]);
  }

  /** The bone a chain of parent links climbs to in k steps. */
  ghost function Climb(parent: seq<int>, x: int, k: nat): int
  {
    if k == 0 then x
    else
      var y := Climb(parent, x, k - 1);
      if 0 <= y < |parent| then parent[y] else -1
  }

  /** The child table is a forest: `parent` names the one bone that lists
      each child, and no bone lists the same child twice. */
  ghost predicate Forest(arm: Armature, rank: seq<nat>, parent: seq<int>)
  {
    && Ranked(arm, rank) && |parent| == arm.boneCount
    && (forall b, i :: 0 <= b < arm.boneCount && 0 <= i < arm.childCounts[b] ==> parent[Child(arm, b, i)] == b)
    && (forall b, i, j :: 0 <= b < arm.boneCount && 0 <= i < j < arm.childCounts[b] ==> Child(arm, b, i) != Child(arm, b, j))
  }

  /** A bone written below the first n children of b is written below one
      of them. */
  lemma {:induction false} ChildOrderMember(arm: Armature, rank: seq<nat>, b: nat, n: nat, x: nat) returns (i: nat)
    requires Ranked(arm, rank) && b < arm.boneCount && n <= arm.childCounts[b]
    requires x in ChildOrder(arm, rank, b, n)
    ensures i < n && x in PostOrder(arm, rank, Child(arm, b, i))
    decreases n
  {
    if x in PostOrder(arm, rank, Child(arm, b, n - 1)) {
      i := n - 1;
    } else {
      i := ChildOrderMember(arm, rank, b, n - 1, x);
    }
  }

  /** In a forest, the parent links of a bone written below c climb to c,
      through bones ranked below c. */
  lemma {:induction false} Below(arm: Armature, rank: seq<nat>, parent: seq<int>, c: nat, x: nat) returns (k: nat)
    requires Forest(arm, rank, parent) && c < arm.boneCount
    requires x in PostOrder(arm, rank, c)
    ensures Climb(parent, x, k) == c
    ensures forall j :: 0 <= j < k ==> 0 <= Climb(parent, x, j) < arm.boneCount && rank[Climb(parent, x, j)] < rank[c]
    decreases rank[c]
  {
    if x == c {
      k := 0;
    } else {
      var n := arm.childCounts[c];
      assert x in ChildOrder(arm, rank, c, n);
      var i := ChildOrderMember(arm, rank, c, n, x);
      var d := Child(arm, c, i);
      var k' := Below(arm, rank, parent, d, x);
      k := k' + 1;
      assert Climb(parent, x, k) == parent[d] == c;
    }
  }

  /** In a forest, two different children of one bone have no written
      bone in common. */
  lemma Apart(arm: Armature, rank: seq<nat>, parent: seq<int>, b: nat, i: nat, j: nat, x: nat)
    requires Forest(arm, rank, parent) && b < arm.boneCount && i < j < arm.childCounts[b]
    requires x in PostOrder(arm, rank, Child(arm, b, i))
    ensures x !in PostOrder(arm, rank, Child(arm, b, j))
  {
    var c1, c2 := Child(arm, b, i), Child(arm, b, j);
    if x in PostOrder(arm, rank, c2) {
      var k1 := Below(arm, rank, parent, c1, x);
      var k2 := Below(arm, rank, parent, c2, x);
      ClimbStep(parent, x, k1);
      ClimbStep(parent, x, k2);
      assert false;
    }
  }

  /** One more parent link: the step after the bone reached in k steps. */
  lemma ClimbStep(parent: seq<int>, x: int, k: nat)
    ensures Climb(parent, x, k + 1) == (var y := Climb(parent, x, k); if 0 <= y < |parent| then parent[y] else -1)
  {
  }

  /** Over a forest, `computeArmatureMatrices` writes each bone below the
      start bone exactly once. */
  lemma {:induction false} WrittenOnce(arm: Armature, rank: seq<nat>, parent: seq<int>, b: nat)
    requires Forest(arm, rank, parent) && b < arm.boneCount
    ensures Distinct(PostOrder(arm, rank, b))
    decreases rank[b], 1
  {
    var n := arm.childCounts[b];
    ChildrenWrittenOnce(arm, rank, parent, b, n);
    forall x | x in ChildOrder(arm, rank, b, n)
      ensures x != b
    {
      var i := ChildOrderMember(arm, rank, b, n, x);
      var k := Below(arm, rank, parent, Child(arm, b, i), x);
      if k > 0 {
        assert rank[Climb(parent, x, 0)] < rank[Child(arm, b, i)];
      }
    }
    DistinctAppend(ChildOrder(arm, rank, b, n), [b]);
  }

  lemma {:induction false} ChildrenWrittenOnce(arm: Armature, rank: seq<nat>, parent: seq<int>, b: nat, n: nat)
    requires Forest(arm, rank, parent) && b < arm.boneCount && n <= arm.childCounts[b]
    ensures Distinct(ChildOrder(arm, rank, b, n))
    decreases rank[b], 0, n
  {
    if n > 0 {
      var c := Child(arm, b, n - 1);
      ChildrenWrittenOnce(arm, rank, parent, b, n - 1);
      WrittenOnce(arm, rank, parent, c);
      forall x | x in ChildOrder(arm, rank, b, n - 1)
        ensures x !in PostOrder(arm, rank, c)
      {
        var i := ChildOrderMember(arm, rank, b, n - 1, x);
        Apart(arm, rank, parent, b, i, n - 1, x);
      }
      DistinctAppend(ChildOrder(arm, rank, b, n - 1), PostOrder(arm, rank, c));
    }
  }

  /** Offset i of a table built from counts whose total fits an `int`,
      plus count i, stays within the total. */
  lemma OffsetFits(counts: seq<Word>, i: int)
    requires 0 <= i < |counts| && Sum(counts) < TWO_31
    ensures Offsets(counts)[i] + counts[i] <= Int32(Sum(counts))
  {
    PrefixBound(counts, i);
    UInt32OfSmall(Sum(counts[..i]));
    Int32OfSmall(Sum(counts));
  }

  lemma PrefixBound(counts: seq<Word>, i: int)
    requires 0 <= i < |counts|
    ensures 0 <= Sum(counts[..i]) && Sum(counts[..i]) + counts[i] <= Sum(counts)
  {
    var pre, post := counts[..i + 1], counts[i + 1..];
    assert pre + post == counts;
    SumAppend(pre, post);
    assert pre[..i] == counts[..i];
    SumNonNegative(counts[..i]);
    SumNonNegative(post);
  }

  /** A loaded armature whose frame counts total less than 2^31 keeps every
      bone's frames inside the timestamp array. */
  lemma LoadedKeyframesInRange(a: Animated, index: int)
    requires WellFormed(a) && Sum(a.armature.frameCounts) < TWO_31
    requires 0 <= index < a.armature.boneCount
    ensures KeyframesInRange(a.armature, index)
  {
    OffsetFits(a.armature.frameCounts, index);
  }
}
