/** The skeleton (`get_skeleton_data`, dae_parser.py:191-213): a nested
    dictionary from bone sid to the dictionary of its child bones; the child
    counts it yields (`walk_bones_counts`, dae_parser.py:346-356) and the
    stream of child ids (`walk_bones`, dae_parser.py:361-370). */
module Skeleton {
  import opened Common
  import opened Py
  import opened XmlTree
  import opened Stream

  /** One dictionary entry: the bone's sid (None when the element has no
      `sid` attribute, which Python uses as a key all the same) and the
      dictionary of its children. A dictionary is a `seq<Bone>` in
      insertion order. */
  datatype Bone = Bone(sid: Option<string>, children: seq<Bone>)

  function Keys(d: seq<Bone>): (r: seq<Option<string>>)
    ensures |r| == |d| && forall i :: 0 <= i < |d| ==> r[i] == d[i].sid
  {
    seq(|d|, i requires 0 <= i < |d| => d[i].sid)
  }

  /** No key occurs twice. */
  predicate UniqueKeys(d: seq<Bone>)
  {
    forall i, j :: 0 <= i < j < |d| ==> d[i].sid != d[j].sid
  }

  /** Every dictionary in the tree has unique keys. */
  predicate WellFormed(d: seq<Bone>)
    decreases d
  {
    UniqueKeys(d) && forall i :: 0 <= i < |d| ==> WellFormed(d[i].children)
  }

  /** `d[key]` as a lookup that may miss. */
  function Lookup(d: seq<Bone>, key: Option<string>): (r: Option<Bone>)
    ensures r.Some? <==> key in Keys(d)
    ensures r.Some? ==> r.value in d && r.value.sid == key
  {
    match IndexOf(Keys(d), key)
    case Ok(i) => Some(d[i])
    case Err(_) => None
  }

  /** `d[b.sid] = b.children`: an existing key keeps its place and takes the
      new value; a new key goes last. */
  function Insert(d: seq<Bone>, b: Bone): (r: seq<Bone>)
    ensures |r| == if b.sid in Keys(d) then |d| else |d| + 1
  {
    match IndexOf(Keys(d), b.sid)
    case Ok(i) => d[i := b]
    case Err(_) => d + [b]
  }

  lemma KeysInsert(d: seq<Bone>, b: Bone)
    ensures Keys(Insert(d, b)) == if b.sid in Keys(d) then Keys(d) else Keys(d) + [b.sid]
  {
    if b.sid in Keys(d) {
      var i := IndexOf(Keys(d), b.sid).value;
      assert Keys(d[i := b]) == Keys(d);
    } else {
      assert Keys(d + [b]) == Keys(d) + [b.sid];
    }
  }

  /** Dictionary assignment as a map: keys stay unique, the key now maps to
      the new value and every other key keeps its value. */
  lemma InsertLookup(d: seq<Bone>, b: Bone, key: Option<string>)
    requires UniqueKeys(d)
    ensures UniqueKeys(Insert(d, b))
    ensures Lookup(Insert(d, b), b.sid) == Some(b)
    ensures key != b.sid ==> Lookup(Insert(d, b), key) == Lookup(d, key)
  {
    InsertUnique(d, b);
    InsertLookupSame(d, b);
    if key != b.sid {
      InsertLookupOther(d, b, key);
    }
  }

  lemma InsertUnique(d: seq<Bone>, b: Bone)
    requires UniqueKeys(d)
    ensures UniqueKeys(Insert(d, b))
  {
    if b.sid in Keys(d) {
      var i := IndexOf(Keys(d), b.sid).value;
      assert forall j :: 0 <= j < |d| ==> Insert(d, b)[j].sid == d[j].sid;
    } else {
      assert forall j :: 0 <= j < |d| ==> d[j].sid == Keys(d)[j];
    }
  }

  lemma InsertLookupSame(d: seq<Bone>, b: Bone)
    ensures Lookup(Insert(d, b), b.sid) == Some(b)
  {
    KeysInsert(d, b);
    IndexOfAppend(Keys(d), b.sid, b.sid);
  }

  lemma InsertLookupOther(d: seq<Bone>, b: Bone, key: Option<string>)
    requires key != b.sid
    ensures Lookup(Insert(d, b), key) == Lookup(d, key)
  {
    KeysInsert(d, b);
    IndexOfAppend(Keys(d), b.sid, key);
    if b.sid in Keys(d) {
      var i := IndexOf(Keys(d), b.sid).value;
      assert Insert(d, b) == d[i := b];
    }
  }

  /** `walk_skeleton(parent)`: the matrix is parsed (it can fail, but its
      value is not part of the result), then every child named `node`
      contributes an entry keyed by its sid. */
  function WalkSkeleton(parent: Element): (r: Result<seq<Bone>>)
    ensures r.Ok? ==> WellFormed(r.value)
    decreases parent, 1
  {
    var matrix :- ChildFloats(parent, "matrix");
    WalkChildren(parent, 0, [])
  }

  /** The loop of `walk_skeleton` from child i on, with the dictionary built
      so far. */
  function WalkChildren(parent: Element, i: nat, acc: seq<Bone>): (r: Result<seq<Bone>>)
    requires i <= |parent.children|
    ensures WellFormed(acc) && r.Ok? ==> WellFormed(r.value)
    decreases parent, 0, |parent.children| - i
  {
    if i == |parent.children| then Ok(acc)
    else
      var child := parent.children[i];
      var isNode :- Named(child, "node");
      if !isNode then WalkChildren(parent, i + 1, acc)
      else
        var sub :- WalkSkeleton(child);
        var b := Bone(Attribute(child, "sid"), sub);
        assert WellFormed(acc) ==> WellFormed(Insert(acc, b)) by {
          if WellFormed(acc) { InsertWellFormed(acc, b); }
        }
        WalkChildren(parent, i + 1, Insert(acc, b))
  }

  lemma InsertWellFormed(d: seq<Bone>, b: Bone)
    requires WellFormed(d) && WellFormed(b.children)
    ensures WellFormed(Insert(d, b))
  {
    InsertLookup(d, b, b.sid);
    var r := Insert(d, b);
    assert forall i :: 0 <= i < |r| ==> r[i] == b || (i < |d| && r[i] == d[i]);
  }

  /** `get_skeleton_data(root)`: the dictionary with the single root bone,
      found as the first `node` child of the armature node. */
  function SkeletonData(root: Element): (r: Result<Bone>)
    ensures r.Ok? ==> WellFormed(r.value.children)
  {
    var armature :- Walk(root, ["library_visual_scenes", "visual_scene", "node"]);
    var rootBone :- GetIn(armature, "node");
    if rootBone.None? then Err(NoneValue)
    else
      var children :- WalkSkeleton(rootBone.value);
      Ok(Bone(Attribute(rootBone.value, "sid"), children))
  }

  /** The bones of a dictionary in the order the recursive walks visit
      them: each bone, then its descendants, then its next sibling. */
  function PreOrder(d: seq<Bone>): (r: seq<Bone>)
    ensures |r| >= |d|
    decreases d
  {
    if d == [] then [] else [d[0]] + PreOrder(d[0].children) + PreOrder(d[1..])
  }

  /** `bone_names.index(sid)`; a missing sid (None) is never in the list. */
  function SidIndex(names: seq<string>, sid: Option<string>): (r: Result<nat>)
    ensures r.Ok? <==> sid.Some? && sid.value in names
    ensures r.Ok? ==> r.value < |names| && names[r.value] == sid.value
    ensures r.Err? ==> r.error == NotInList
  {
    match sid
    case None => Err(NotInList)
    case Some(s) => IndexOf(names, s)
  }

  /** The writes of `walk_bones_counts`, one per visited bone in order:
      `child_counts[index(sid)] = len(children)`. */
  function CountWrites(nodes: seq<Bone>, names: seq<string>, counts: seq<int>): (r: Result<seq<int>>)
    requires |counts| == |names|
    ensures r.Ok? ==> |r.value| == |counts|
    ensures r.Err? ==> r.error == NotInList
    decreases |nodes|
  {
    if nodes == [] then Ok(counts)
    else
      var i :- SidIndex(names, nodes[0].sid);
      CountWrites(nodes[1..], names, counts[i := |nodes[0].children|])
  }

  lemma {:induction false} CountWritesAppend(xs: seq<Bone>, ys: seq<Bone>, names: seq<string>, counts: seq<int>)
    requires |counts| == |names|
    ensures CountWrites(xs + ys, names, counts) ==
      match CountWrites(xs, names, counts)
      case Err(e) => Err(e)
      case Ok(c) => CountWrites(ys, names, c)
    decreases |xs|
  {
    if xs == [] {
      assert xs + ys == ys;
    } else {
      assert (xs + ys)[0] == xs[0] && (xs + ys)[1..] == xs[1..] + ys;
      var i := SidIndex(names, xs[0].sid);
      if i.Ok? {
        CountWritesAppend(xs[1..], ys, names, counts[i.value := |xs[0].children|]);
      }
    }
  }

  /** Visiting bone k of a dictionary: its own write, then its subtree's,
      then those of the bones after it. */
  lemma CountWritesVisit(d: seq<Bone>, k: nat, names: seq<string>, c: seq<int>)
    requires k < |d| && |c| == |names|
    ensures CountWrites(PreOrder(d[k..]), names, c) ==
      match SidIndex(names, d[k].sid)
      case Err(e) => Err(e)
      case Ok(i) =>
        match CountWrites(PreOrder(d[k].children), names, c[i := |d[k].children|])
        case Err(e) => Err(e)
        case Ok(c2) => CountWrites(PreOrder(d[k + 1..]), names, c2)
  {
    var b := d[k];
    assert d[k..][0] == b && d[k..][1..] == d[k + 1..];
    var tail := PreOrder(b.children) + PreOrder(d[k + 1..]);
    assert PreOrder(d[k..]) == [b] + tail;
    CountWritesCons(b, tail, names, c);
    var i := SidIndex(names, b.sid);
    if i.Ok? {
      CountWritesAppend(PreOrder(b.children), PreOrder(d[k + 1..]), names, c[i.value := |b.children|]);
    }
  }

  /** The first bone visited writes its child count, then the rest go on. */
  lemma CountWritesCons(b: Bone, tail: seq<Bone>, names: seq<string>, c: seq<int>)
    requires |c| == |names|
    ensures CountWrites([b] + tail, names, c) ==
      match SidIndex(names, b.sid)
      case Err(e) => Err(e)
      case Ok(i) => CountWrites(tail, names, c[i := |b.children|])
  {
    assert ([b] + tail)[0] == b && ([b] + tail)[1..] == tail;
  }

  /** `walk_bones_counts(children)` (dae_parser.py:348-354), writing into
      `child_counts`. */
  method WalkBonesCounts(children: seq<Bone>, names: seq<string>, counts: array<int>) returns (r: Result<()>)
    requires counts.Length == |names|
    modifies counts
    ensures r.Ok? <==> CountWrites(PreOrder(children), names, old(counts[..])).Ok?
    ensures r.Ok? ==> counts[..] == CountWrites(PreOrder(children), names, old(counts[..])).value
    ensures r.Err? ==> r.error == NotInList
    decreases children
  {
    var k := 0;
    while k < |children|
      invariant 0 <= k <= |children|
      invariant CountWrites(PreOrder(children), names, old(counts[..])) ==
                CountWrites(PreOrder(children[k..]), names, counts[..])
    {
      var b := children[k];
      CountWritesVisit(children, k, names, counts[..]);
      var i := SidIndex(names, b.sid);
      if i.Err? {
        return Err(NotInList);
      }
      ghost var before := counts[..];
      counts[i.value] := |b.children|;
      assert counts[..] == before[i.value := |b.children|];
      var sub := WalkBonesCounts(b.children, names, counts);
      if sub.Err? {
        return Err(NotInList);
      }
      k := k + 1;
    }
    assert children[k..] == [];
    r := Ok(());
  }

  /** When every visited bone has its own slot in the name list, the counts
      hold each bone's number of children at its slot and keep every other
      slot. */
  lemma {:induction false} CountWritesDistinct(nodes: seq<Bone>, names: seq<string>, counts: seq<int>)
    requires |counts| == |names|
    requires forall k :: 0 <= k < |nodes| ==> SidIndex(names, nodes[k].sid).Ok?
    requires forall k, l :: 0 <= k < l < |nodes| ==>
      SidIndex(names, nodes[k].sid).value != SidIndex(names, nodes[l].sid).value
    ensures CountWrites(nodes, names, counts).Ok?
    ensures forall k :: 0 <= k < |nodes| ==>
      CountWrites(nodes, names, counts).value[SidIndex(names, nodes[k].sid).value] == |nodes[k].children|
    ensures forall i :: 0 <= i < |counts| && (forall k :: 0 <= k < |nodes| ==> SidIndex(names, nodes[k].sid).value != i) ==>
      CountWrites(nodes, names, counts).value[i] == counts[i]
    decreases |nodes|
  {
    if nodes != [] {
      var i := SidIndex(names, nodes[0].sid).value;
      var c := counts[i := |nodes[0].children|];
      var rest := nodes[1..];
      assert forall k :: 0 <= k < |rest| ==> rest[k] == nodes[k + 1];
      CountWritesDistinct(rest, names, c);
    }
  }

  /** `[bone_names.index(name) for name in children]`. */
  function ChildIds(d: seq<Bone>, names: seq<string>): (r: Result<seq<int>>)
    ensures r.Ok? <==> forall i :: 0 <= i < |d| ==> SidIndex(names, d[i].sid).Ok?
    ensures r.Ok? ==> |r.value| == |d| && forall i :: 0 <= i < |d| ==> r.value[i] == SidIndex(names, d[i].sid).value
    ensures r.Err? ==> r.error == NotInList
    decreases |d|
  {
    if d == [] then Ok([])
    else
      var init :- ChildIds(d[..|d| - 1], names);
      var last :- SidIndex(names, d[|d| - 1].sid);
      Ok(init + [last])
  }

  /** A child whose sid is not a bone name makes the whole list raise. */
  lemma ChildIdsStops(d: seq<Bone>, names: seq<string>, k: nat)
    requires k < |d| && SidIndex(names, d[k].sid).Err?
    ensures ChildIds(d, names) == Err(NotInList)
  {
  }

  /** Every bone of the sequence has a child-id list. */
  predicate ChildIdsOk(nodes: seq<Bone>, names: seq<string>)
  {
    forall k :: 0 <= k < |nodes| ==> ChildIds(nodes[k].children, names).Ok?
  }

  /** The child-id lists of a sequence of bones, one list per bone. */
  function ChildLists(nodes: seq<Bone>, names: seq<string>): (r: seq<seq<int>>)
    requires ChildIdsOk(nodes, names)
    ensures |r| == |nodes|
  {
    seq(|nodes|, k requires 0 <= k < |nodes| => ChildIds(nodes[k].children, names).value)
  }

  /** What `walk_bones(children)` (dae_parser.py:361-368) writes: the ids
      of the dictionary's own keys in one pack, then the writes for each
      child in order; a name missing from the list raises before its
      dictionary's pack, after the writes made so far. */
  function HierarchyStream(d: seq<Bone>, names: seq<string>): (r: Emission)
    ensures r.failure.Some? ==> r.failure.value == NotInList || r.failure.value == PackRange
    decreases d, 1
  {
    match ChildIds(d, names)
    case Err(e) => Emission([], Some(e))
    case Ok(ids) => Packed(PackUInts(ids)).Then(HierarchyEach(d, names, 0))
  }

  function HierarchyEach(d: seq<Bone>, names: seq<string>, i: nat): (r: Emission)
    requires i <= |d|
    ensures r.failure.Some? ==> r.failure.value == NotInList || r.failure.value == PackRange
    decreases d, 0, |d| - i
  {
    if i == |d| then Emission([], None)
    else HierarchyStream(d[i].children, names).Then(HierarchyEach(d, names, i + 1))
  }

  /** Once the child ids are written, what remains is the walk over the
      bones from the first. */
  lemma HierarchyStreamStart(d: seq<Bone>, names: seq<string>, base: seq<Word>, after: seq<Word>)
    requires ChildIds(d, names).Ok? && PackUInts(ChildIds(d, names).value).Ok?
    requires after == base + ChildIds(d, names).value
    ensures Emission(after, None).Then(HierarchyEach(d, names, 0)) ==
            Emission(base, None).Then(HierarchyStream(d, names))
  {
    var ids := ChildIds(d, names).value;
    var p, rest := Packed(PackUInts(ids)), HierarchyEach(d, names, 0);
    assert p == Emission(ids, None);
    assert HierarchyStream(d, names) == p.Then(rest);
    ThenAssociative(Emission(base, None), p, rest);
    assert Emission(base, None).Then(p) == Emission(after, None);
  }

  /** One turn of the loop over the bones: the file now also holds the
      stream of bone k, and either the walk goes on with bone k + 1 or it
      stops with that stream's exception. */
  lemma HierarchyEachStep(d: seq<Bone>, names: seq<string>, k: nat, before: seq<Word>, after: seq<Word>, failure: Option<Error>)
    requires k < |d|
    requires after == before + HierarchyStream(d[k].children, names).words
    requires failure == HierarchyStream(d[k].children, names).failure
    ensures failure.None? ==> Emission(before, None).Then(HierarchyEach(d, names, k)) ==
                              Emission(after, None).Then(HierarchyEach(d, names, k + 1))
    ensures failure.Some? ==> Emission(before, None).Then(HierarchyEach(d, names, k)) == Emission(after, failure)
  {
    var here, rest := HierarchyStream(d[k].children, names), HierarchyEach(d, names, k + 1);
    assert HierarchyEach(d, names, k) == here.Then(rest);
    ThenAssociative(Emission(before, None), here, rest);
    assert Emission(before, None).Then(here) == Emission(after, failure);
  }

  /** When every bone's children are in the name list, the hierarchy stream
      is the concatenation, over the bones in pre-order, of each bone's child
      ids; so the k-th visited bone's children are the k-th group of the
      stream. */
  lemma {:induction false} HierarchyIsPreOrder(d: seq<Bone>, names: seq<string>)
    requires |names| <= TWO_32
    requires ChildIds(d, names).Ok? && ChildIdsOk(PreOrder(d), names)
    ensures HierarchyStream(d, names).failure.None?
    ensures HierarchyStream(d, names).words == ChildIds(d, names).value + Concat(ChildLists(PreOrder(d), names))
    decreases d, 1
  {
    assert d[0..] == d;
    HierarchyEachIsPreOrder(d, names, 0);
  }

  lemma {:induction false} HierarchyEachIsPreOrder(d: seq<Bone>, names: seq<string>, i: nat)
    requires |names| <= TWO_32
    requires i <= |d| && ChildIdsOk(PreOrder(d[i..]), names)
    ensures HierarchyEach(d, names, i).failure.None?
    ensures HierarchyEach(d, names, i).words == Concat(ChildLists(PreOrder(d[i..]), names))
    decreases d, 0, |d| - i
  {
    if i == |d| {
      assert d[i..] == [];
    } else {
      var b := d[i];
      assert d[i..][0] == b && d[i..][1..] == d[i + 1..];
      var po, pc, pr := PreOrder(d[i..]), PreOrder(b.children), PreOrder(d[i + 1..]);
      assert po == [b] + pc + pr;
      ChildListsSplit(b, pc, pr, names);
      var cb := ChildIds(b.children, names).value;
      var cc, cr := ChildLists(pc, names), ChildLists(pr, names);
      HierarchyIsPreOrder(b.children, names);
      HierarchyEachIsPreOrder(d, names, i + 1);
      ConcatAppend([cb] + cc, cr);
      ConcatCons(cb, cc);
    }
  }

  lemma ChildListsSplit(b: Bone, pc: seq<Bone>, pr: seq<Bone>, names: seq<string>)
    requires ChildIdsOk([b] + pc + pr, names)
    ensures ChildIds(b.children, names).Ok? && ChildIdsOk(pc, names) && ChildIdsOk(pr, names)
    ensures ChildLists([b] + pc + pr, names) ==
      [ChildIds(b.children, names).value] + ChildLists(pc, names) + ChildLists(pr, names)
  {
    ChildListsAppend([b] + pc, pr, names);
    ChildListsAppend([b], pc, names);
    assert [b][0] == b;
  }

  lemma ChildListsAppend(a: seq<Bone>, c: seq<Bone>, names: seq<string>)
    requires ChildIdsOk(a + c, names)
    ensures ChildIdsOk(a, names) && ChildIdsOk(c, names)
    ensures ChildLists(a + c, names) == ChildLists(a, names) + ChildLists(c, names)
  {
    var ac := a + c;
    assert forall k :: 0 <= k < |a| ==> ac[k] == a[k];
    assert forall k :: 0 <= k < |c| ==> ac[|a| + k] == c[k];
  }

  /** The number of children of each bone of a sequence. */
  function ChildCounts(nodes: seq<Bone>): (r: seq<int>)
    ensures |r| == |nodes| && forall k :: 0 <= k < |nodes| ==> r[k] == |nodes[k].children|
  {
    seq(|nodes|, k requires 0 <= k < |nodes| => |nodes[k].children|)
  }

  /** Every bone the walks visit, except the dictionary's own keys, is the
      child of exactly one visited bone: the child counts over the
      pre-order add up to the number of non-key bones. */
  lemma {:induction false} PreOrderChildTotal(d: seq<Bone>)
    ensures Sum(ChildCounts(PreOrder(d))) == |PreOrder(d)| - |d|
    decreases d
  {
    if d != [] {
      var pc, pr := PreOrder(d[0].children), PreOrder(d[1..]);
      PreOrderChildTotal(d[0].children);
      PreOrderChildTotal(d[1..]);
      ChildCountsAppend([d[0]] + pc, pr);
      ChildCountsAppend([d[0]], pc);
      assert ChildCounts([d[0]]) == [|d[0].children|];
      SumAppend([|d[0].children|] + ChildCounts(pc), ChildCounts(pr));
      SumAppend([|d[0].children|], ChildCounts(pc));
      assert Sum([|d[0].children|]) == |d[0].children| by {
        assert [|d[0].children|][..0] == [];
      }
    }
  }

  lemma ChildCountsAppend(a: seq<Bone>, b: seq<Bone>)
    ensures ChildCounts(a + b) == ChildCounts(a) + ChildCounts(b)
  {
  }

  /** The walks visit the dictionary's keys and, with every bone they
      visit, each of its children. */
  lemma {:induction false} PreOrderCloses(d: seq<Bone>)
    ensures forall j :: 0 <= j < |d| ==> d[j] in PreOrder(d)
    ensures forall k, j :: 0 <= k < |PreOrder(d)| && 0 <= j < |PreOrder(d)[k].children| ==>
      PreOrder(d)[k].children[j] in PreOrder(d)
    decreases d
  {
    if d != [] {
      var b := d[0];
      var pc, pr := PreOrder(b.children), PreOrder(d[1..]);
      var po := PreOrder(d);
      assert po == [b] + pc + pr;
      PreOrderCloses(b.children);
      PreOrderCloses(d[1..]);
      forall j | 0 <= j < |d|
        ensures d[j] in po
      {
        if j > 0 {
          assert d[j] == d[1..][j - 1];
        }
      }
      forall k, j | 0 <= k < |po| && 0 <= j < |po[k].children|
        ensures po[k].children[j] in po
      {
        if k == 0 {
          assert b.children[j] in pc;
        } else if k < 1 + |pc| {
          assert po[k] == pc[k - 1];
        } else {
          assert po[k] == pr[k - 1 - |pc|];
        }
      }
    }
  }
}
