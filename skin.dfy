/** Skin extraction (`get_controller_data`, dae_parser.py:112-162): the
    joint names, the inverse bind matrices cut into 16-float groups, and the
    per-vertex influence lists expanded from the `vcount`/`v` streams. */
module Skin {
  import opened Common
  import opened Py
  import opened XmlTree

  /** The influences of one vertex: joint ids and their weights, pairwise. */
  datatype Influences = Influences(ids: seq<int>, weights: seq<real>)

  datatype SkinData = SkinData(names: seq<string>, ibms: seq<seq<real>>, weights: seq<Influences>)

  /** The accumulated `source` arrays of a skin. */
  datatype SkinSources = SkinSources(names: seq<string>, ibms: seq<seq<real>>, weightData: seq<real>)

  /** Pair j of an entry starting at `start` in the `v` stream: the joint id
      `v[start + 2j]` and the weight `weightData[v[start + 2j + 1]]`, all
      with Python's (negative-index-aware) list indexing. */
  function Pair(verts: seq<int>, weightData: seq<real>, i: int): (r: Result<(int, real)>)
    ensures r.Err? ==> r.error == IndexOutOfRange
    ensures r.Ok? <==>
      At(verts, i).Ok? && At(verts, i + 1).Ok? && At(weightData, At(verts, i + 1).value).Ok?
  {
    var id :- At(verts, i);
    var wi :- At(verts, i + 1);
    var w :- At(weightData, wi);
    Ok((id, w))
  }

  /** The influences of a vertex with `count` pairs starting at `start`. */
  function Entry(verts: seq<int>, weightData: seq<real>, start: int, count: nat): (r: Result<Influences>)
    ensures r.Err? ==> r.error == IndexOutOfRange
    ensures r.Ok? <==> forall j :: 0 <= j < count ==> Pair(verts, weightData, start + 2 * j).Ok?
    ensures r.Ok? ==> |r.value.ids| == count && |r.value.weights| == count
    ensures r.Ok? ==> forall j :: 0 <= j < count ==>
      (r.value.ids[j], r.value.weights[j]) == Pair(verts, weightData, start + 2 * j).value
    decreases count
  {
    if count == 0 then Ok(Influences([], []))
    else
      var init :- Entry(verts, weightData, start, count - 1);
      var p :- Pair(verts, weightData, start + 2 * (count - 1));
      Ok(Influences(init.ids + [p.0], init.weights + [p.1]))
  }

  /** The number of pairs `range(index, index + count * 2, 2)` visits. */
  function PairCount(count: int): nat
  {
    if count < 0 then 0 else count
  }

  /** The influence lists of all vertices: entry k has `vcounts[k]` pairs and
      starts at twice the sum of the counts before it. */
  function WeightsSpec(vcounts: seq<int>, verts: seq<int>, weightData: seq<real>): (r: Result<seq<Influences>>)
    ensures r.Err? ==> r.error == IndexOutOfRange
    ensures r.Ok? ==> |r.value| == |vcounts|
    decreases |vcounts|
  {
    if vcounts == [] then Ok([])
    else
      var n := |vcounts| - 1;
      var init :- WeightsSpec(vcounts[..n], verts, weightData);
      var e :- Entry(verts, weightData, 2 * Sum(vcounts[..n]), PairCount(vcounts[n]));
      Ok(init + [e])
  }

  /** A failure on a prefix of the counts is a failure of the whole. */
  lemma {:induction false} WeightsPrefixErr(vcounts: seq<int>, verts: seq<int>, weightData: seq<real>, k: nat)
    requires k <= |vcounts| && WeightsSpec(vcounts[..k], verts, weightData).Err?
    ensures WeightsSpec(vcounts, verts, weightData).Err?
    decreases |vcounts| - k
  {
    if k < |vcounts| {
      assert vcounts[..k + 1][..k] == vcounts[..k];
      WeightsPrefixErr(vcounts, verts, weightData, k + 1);
    } else {
      assert vcounts[..k] == vcounts;
    }
  }

  /** The expansion loop (dae_parser.py:141-153). */
  method ExpandWeights(vcounts: seq<int>, verts: seq<int>, weightData: seq<real>) returns (r: Result<seq<Influences>>)
    ensures r == WeightsSpec(vcounts, verts, weightData)
  {
    var weights: seq<Influences> := [];
    var index := 0;
    var k := 0;
    while k < |vcounts|
      invariant 0 <= k <= |vcounts|
      invariant index == 2 * Sum(vcounts[..k])
      invariant WeightsSpec(vcounts[..k], verts, weightData) == Ok(weights)
    {
      var count := vcounts[k];
      assert vcounts[..k + 1][..k] == vcounts[..k];
      var entry := ExpandEntry(verts, weightData, index, count);
      if entry.Err? {
        WeightsPrefixErr(vcounts, verts, weightData, k + 1);
        return Err(IndexOutOfRange);
      }
      weights := weights + [entry.value];
      index := index + count * 2;
      k := k + 1;
    }
    assert vcounts[..k] == vcounts;
    r := Ok(weights);
  }

  /** The inner loop of the expansion (dae_parser.py:145-152): the pairs of
      one vertex, read two `v` entries at a time. */
  method ExpandEntry(verts: seq<int>, weightData: seq<real>, index: int, count: int) returns (r: Result<Influences>)
    ensures r == Entry(verts, weightData, index, PairCount(count))
  {
    var ids: seq<int> := [];
    var ws: seq<real> := [];
    var i := index;
    while i < index + count * 2
      invariant index <= i && (i - index) % 2 == 0
      invariant i - index <= 2 * PairCount(count)
      invariant Entry(verts, weightData, index, (i - index) / 2) == Ok(Influences(ids, ws))
      decreases index + count * 2 - i
    {
      if Pair(verts, weightData, i).Err? {
        assert index + 2 * ((i - index) / 2) == i;
        EntryPrefixErr(verts, weightData, index, (i - index) / 2 + 1, PairCount(count));
        return Err(IndexOutOfRange);
      }
      var id := At(verts, i).value;
      var wi := At(verts, i + 1).value;
      ids := ids + [id];
      ws := ws + [At(weightData, wi).value];
      i := i + 2;
    }
    assert (i - index) / 2 == PairCount(count);
    r := Ok(Influences(ids, ws));
  }

  /** An entry whose first c pairs fail fails whatever its length. */
  lemma EntryPrefixErr(verts: seq<int>, weightData: seq<real>, start: int, c: nat, count: nat)
    requires c <= count && Entry(verts, weightData, start, c).Err?
    ensures Entry(verts, weightData, start, count).Err?
  {
  }

  /** With non-negative counts, entry k reads the pairs that follow all the
      pairs of the entries before it: its ids are `v[2s], v[2s + 2], ...` for
      s the number of pairs before it. */
  lemma {:induction false} WeightsEntries(vcounts: seq<int>, verts: seq<int>, weightData: seq<real>, k: nat)
    requires WeightsSpec(vcounts, verts, weightData).Ok?
    requires k < |vcounts|
    ensures var e := WeightsSpec(vcounts, verts, weightData).value[k];
      && |e.ids| == PairCount(vcounts[k]) && |e.weights| == PairCount(vcounts[k])
      && forall j :: 0 <= j < PairCount(vcounts[k]) ==>
           Pair(verts, weightData, 2 * Sum(vcounts[..k]) + 2 * j) == Ok((e.ids[j], e.weights[j]))
    decreases |vcounts|
  {
    var n := |vcounts| - 1;
    assert vcounts[..n][..n] == vcounts[..n];
    if k < n {
      assert vcounts[..n][..k] == vcounts[..k];
      WeightsEntries(vcounts[..n], verts, weightData, k);
    }
  }

  /** A stream long enough for all pairs, whose weight indices are all in
      range, expands without error. */
  lemma {:induction false} WeightsSucceed(vcounts: seq<int>, verts: seq<int>, weightData: seq<real>)
    requires forall k :: 0 <= k < |vcounts| ==> vcounts[k] >= 0
    requires 2 * Sum(vcounts) <= |verts|
    requires forall j :: 0 <= j < Sum(vcounts) ==> 0 <= verts[2 * j + 1] < |weightData|
    ensures WeightsSpec(vcounts, verts, weightData).Ok?
    decreases |vcounts|
  {
    if vcounts != [] {
      var n := |vcounts| - 1;
      var pre, c := vcounts[..n], vcounts[n];
      assert Sum(vcounts) == Sum(pre) + c;
      assert forall k :: 0 <= k < |pre| ==> pre[k] >= 0;
      SumNonNegative(pre);
      WeightsSucceed(pre, verts, weightData);
      EntryInRange(verts, weightData, Sum(pre), c);
      assert PairCount(c) == c;
    }
  }

  /** The c pairs after the first s pairs are readable when the stream holds
      them and their weight indices are in range. */
  lemma EntryInRange(verts: seq<int>, weightData: seq<real>, s: nat, c: nat)
    requires 2 * (s + c) <= |verts|
    requires forall j :: 0 <= j < s + c ==> 0 <= verts[2 * j + 1] < |weightData|
    ensures Entry(verts, weightData, 2 * s, c).Ok?
  {
    forall j | 0 <= j < c
      ensures Pair(verts, weightData, 2 * s + 2 * j).Ok?
    {
      var m := s + j;
      assert 0 <= verts[2 * m + 1] < |weightData|;
    }
  }

  /** The skin's `source` children (dae_parser.py:124-134): joint names,
      inverse bind matrices and weights are appended in document order; a
      child that is not a `source` is skipped, a `source` without an id
      fails. */
  function ScanSkinSources(cs: seq<Element>, acc: SkinSources): (r: Result<SkinSources>)
    ensures r.Ok? ==> acc.names <= r.value.names && acc.ibms <= r.value.ibms && acc.weightData <= r.value.weightData
    decreases |cs|
  {
    if cs == [] then Ok(acc)
    else
      var source := cs[0];
      var isSource :- Named(source, "source");
      if !isSource then ScanSkinSources(cs[1..], acc)
      else
        match Attribute(source, "id")
        case None => Err(NoneValue)
        case Some(id) =>
          if EndsWith(id, "skin-joints") then
            var c :- Get(source, "Name_array");
            var atoms :- Tokens(c);
            ScanSkinSources(cs[1..], acc.(names := acc.names + Words(atoms)))
          else if EndsWith(id, "skin-bind_poses") then
            var values :- ChildFloats(source, "float_array");
            ScanSkinSources(cs[1..], acc.(ibms := acc.ibms + Chunks(values, 16)))
          else if EndsWith(id, "skin-weights") then
            var values :- ChildFloats(source, "float_array");
            ScanSkinSources(cs[1..], acc.(weightData := acc.weightData + values))
          else ScanSkinSources(cs[1..], acc)
  }

  /** Every inverse bind matrix is cut from one source's floats: all but
      possibly the last of each source's groups hold 16 floats, and a source
      whose float count is a multiple of 16 gives only full matrices. */
  lemma {:induction false} BindPoseChunks(values: seq<real>)
    requires |values| % 16 == 0
    ensures forall i :: 0 <= i < |Chunks(values, 16)| ==> |Chunks(values, 16)[i]| == 16
    ensures Concat(Chunks(values, 16)) == values
    decreases |values|
  {
    ChunksConcat(values, 16);
    if |values| > 16 {
      BindPoseChunks(values[16..]);
    }
  }

  /** Everything `get_controller_data` reads before the expansion loop: the
      first controller's skin sources and its `vcount`/`v` streams. The bind
      shape matrix is parsed (and may fail) but not kept. A
      `library_controllers` without children makes the function return None,
      which the caller's tuple unpacking rejects. */
  function SkinInputs(root: Element): Result<(SkinSources, seq<int>, seq<int>)>
  {
    var controllers :- Get(root, "library_controllers");
    if controllers.None? || controllers.value.children == [] then Err(NoneValue)
    else
      var controller := controllers.value.children[0];
      var skin :- Get(controller, "skin");
      if skin.None? then Err(NoneValue)
      else
        var bindShape :- ChildFloats(skin.value, "bind_shape_matrix");
        var sources :- ScanSkinSources(skin.value.children, SkinSources([], [], []));
        var vertexWeights :- Get(skin.value, "vertex_weights");
        var vcounts :- ChildInts(vertexWeights, "vcount");
        var verts :- ChildInts(vertexWeights, "v");
        Ok((sources, vcounts, verts))
  }

  /** What `get_controller_data(root)` returns or raises. */
  function SkinSpec(root: Element): (r: Result<SkinData>)
    ensures SkinInputs(root).Err? ==> r == Err(SkinInputs(root).error)
    ensures SkinInputs(root).Ok? ==>
      var (sources, vcounts, verts) := SkinInputs(root).value;
      match WeightsSpec(vcounts, verts, sources.weightData)
      case Err(e) => r == Err(e)
      case Ok(weights) => r == Ok(SkinData(sources.names, sources.ibms, weights))
  {
    var (sources, vcounts, verts) :- SkinInputs(root);
    var weights :- WeightsSpec(vcounts, verts, sources.weightData);
    Ok(SkinData(sources.names, sources.ibms, weights))
  }

  /** `get_controller_data(root)`. */
  method GetControllerData(root: Element) returns (r: Result<SkinData>)
    ensures r == SkinSpec(root)
  {
    var inputs := SkinInputs(root);
    if inputs.Err? {
      return Err(inputs.error);
    }
    var (sources, vcounts, verts) := inputs.value;
    var weights := ExpandWeights(vcounts, verts, sources.weightData);
    if weights.Err? {
      return Err(weights.error);
    }
    r := Ok(SkinData(sources.names, sources.ibms, weights.value));
  }
}
