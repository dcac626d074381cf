/** The four joint influences written per vertex (dae_parser.py:307-323):
    the vertex's (joint id, weight) pairs sorted by weight, heaviest first
    and stable on ties; padded with (0, 0.0) or cut to four; and the
    weights scaled to unit Euclidean length. */
module Influence {
  import opened Common
  import opened Py
  import opened Skin

  type Pair = (int, real)

  /** `list(zip(ids, weights))`: pairs up to the shorter list. */
  function Zip(ids: seq<int>, weights: seq<real>): (r: seq<Pair>)
    ensures |r| == if |ids| < |weights| then |ids| else |weights|
    ensures forall i :: 0 <= i < |r| ==> r[i] == (ids[i], weights[i])
  {
    var n := if |ids| < |weights| then |ids| else |weights|;
    seq(n, i requires 0 <= i < n => (ids[i], weights[i]))
  }

  predicate SortedDesc(s: seq<Pair>)
  {
    forall i, j :: 0 <= i < j < |s| ==> s[i].1 >= s[j].1
  }

  /** The pairs of s with weight w, in their order in s. */
  function WithWeight(s: seq<Pair>, w: real): seq<Pair>
  {
    if s == [] then []
    else WithWeight(s[..|s| - 1], w) + (if s[|s| - 1].1 == w then [s[|s| - 1]] else [])
  }

  /** Puts x into a heaviest-first sequence after every pair at least as
      heavy as x. */
  function InsertPair(x: Pair, s: seq<Pair>): (r: seq<Pair>)
    ensures |r| == |s| + 1
    decreases |s|
  {
    if s == [] then [x]
    else if s[0].1 < x.1 then [x] + s
    else [s[0]] + InsertPair(x, s[1..])
  }

  /** `list.sort(key = weight, reverse = True)`, which is stable. */
  function SortDesc(s: seq<Pair>): (r: seq<Pair>)
    ensures |r| == |s|
    decreases |s|
  {
    if s == [] then [] else InsertPair(s[|s| - 1], SortDesc(s[..|s| - 1]))
  }

  lemma {:induction false} InsertPairElements(x: Pair, s: seq<Pair>)
    ensures multiset(InsertPair(x, s)) == multiset(s) + multiset{x}
    decreases |s|
  {
    if s != [] && s[0].1 >= x.1 {
      InsertPairElements(x, s[1..]);
      assert s == [s[0]] + s[1..];
    }
  }

  lemma {:induction false} InsertPairSorted(x: Pair, s: seq<Pair>)
    requires SortedDesc(s)
    ensures SortedDesc(InsertPair(x, s))
    decreases |s|
  {
    if s != [] && s[0].1 >= x.1 {
      var t := s[1..];
      InsertPairSorted(x, t);
      InsertPairElements(x, t);
      var r := [s[0]] + InsertPair(x, t);
      forall i | 0 < i < |r| ensures r[0].1 >= r[i].1 {
        var q := InsertPair(x, t)[i - 1];
        assert q in multiset(InsertPair(x, t));
        assert q in t || q == x;
      }
    }
  }

  lemma {:induction false} InsertPairStable(x: Pair, s: seq<Pair>, w: real)
    requires SortedDesc(s)
    ensures WithWeight(InsertPair(x, s), w) == WithWeight(s, w) + (if x.1 == w then [x] else [])
    decreases |s|
  {
    if s == [] {
      assert [x][..0] == [];
    } else if s[0].1 < x.1 {
      WithWeightNone(s, w, x);
      WithWeightCons(x, s, w);
    } else {
      var t := s[1..];
      InsertPairStable(x, t, w);
      assert s == [s[0]] + t;
      WithWeightCons(s[0], InsertPair(x, t), w);
      WithWeightCons(s[0], t, w);
    }
  }

  lemma {:induction false} WithWeightCons(x: Pair, s: seq<Pair>, w: real)
    ensures WithWeight([x] + s, w) == (if x.1 == w then [x] else []) + WithWeight(s, w)
    decreases |s|
  {
    if s == [] {
      assert [x] + s == [x] && [x][..0] == [];
    } else {
      var xs := [x] + s;
      assert xs[..|xs| - 1] == [x] + s[..|s| - 1];
      WithWeightCons(x, s[..|s| - 1], w);
    }
  }

  /** When x is heavier than every pair of s, s holds no pair of x's weight. */
  lemma {:induction false} WithWeightNone(s: seq<Pair>, w: real, x: Pair)
    requires SortedDesc(s) && (s != [] ==> s[0].1 < x.1)
    ensures x.1 == w ==> WithWeight(s, w) == []
    decreases |s|
  {
    if s != [] {
      assert s[|s| - 1].1 <= s[0].1;
      WithWeightNone(s[..|s| - 1], w, x);
    }
  }

  /** The sort orders by weight, keeps every pair, and keeps pairs of equal
      weight in their original order. */
  lemma {:induction false} SortDescProperties(s: seq<Pair>)
    ensures SortedDesc(SortDesc(s))
    ensures multiset(SortDesc(s)) == multiset(s)
    ensures forall w :: WithWeight(SortDesc(s), w) == WithWeight(s, w)
    decreases |s|
  {
    if s != [] {
      var init, x := s[..|s| - 1], s[|s| - 1];
      SortDescProperties(init);
      InsertPairSorted(x, SortDesc(init));
      InsertPairElements(x, SortDesc(init));
      forall w ensures WithWeight(SortDesc(s), w) == WithWeight(s, w) {
        InsertPairStable(x, SortDesc(init), w);
      }
      assert s == init + [x];
    }
  }

  /** Pads with (0, 0.0) up to four pairs, or keeps the first four. */
  function Fit4(s: seq<Pair>): (r: seq<Pair>)
    ensures |r| == 4
    ensures |s| >= 4 ==> r == s[..4]
    ensures |s| < 4 ==> r[..|s|] == s && forall i :: |s| <= i < 4 ==> r[i] == (0, 0.0)
  {
    if |s| < 4 then s + seq(4 - |s|, _ => (0, 0.0))
    else if |s| > 4 then s[..4]
    else s
  }

  function Ids(s: seq<Pair>): (r: seq<int>)
    ensures |r| == |s| && forall i :: 0 <= i < |s| ==> r[i] == s[i].0
  {
    seq(|s|, i requires 0 <= i < |s| => s[i].0)
  }

  function Weights(s: seq<Pair>): (r: seq<real>)
    ensures |r| == |s| && forall i :: 0 <= i < |s| ==> r[i] == s[i].1
  {
    seq(|s|, i requires 0 <= i < |s| => s[i].1)
  }

  /** Splitting the pairs into ids and weights loses nothing: zipping them
      gives the pairs back, and zipping equally long lists and splitting the
      result gives the lists back. */
  lemma ZipUnzip(s: seq<Pair>, ids: seq<int>, ws: seq<real>)
    ensures Zip(Ids(s), Weights(s)) == s
    ensures |ids| == |ws| ==> Ids(Zip(ids, ws)) == ids && Weights(Zip(ids, ws)) == ws
  {
  }

  /** `sum([i * i for i in weights])`. */
  function SumSquares(ws: seq<real>): (r: real)
    ensures r >= 0.0
  {
    if ws == [] then 0.0 else SumSquares(ws[..|ws| - 1]) + ws[|ws| - 1] * ws[|ws| - 1]
  }

  /** `[i / length for i in weights]` for a non-zero length. */
  function Scale(ws: seq<real>, length: real): (r: seq<real>)
    requires length != 0.0
    ensures |r| == |ws| && forall i :: 0 <= i < |ws| ==> r[i] * length == ws[i]
  {
    seq(|ws|, i requires 0 <= i < |ws| => ws[i] / length)
  }

  /** a * b, as one term that lemma calls pass on unchanged. */
  function Times(a: real, b: real): real
  {
    a * b
  }

  /** Scaling by 1/length scales the sum of squares by 1/l2, l2 = length². */
  lemma {:induction false} SumSquaresScale(ws: seq<real>, length: real, l2: real)
    requires length != 0.0 && l2 == length * length
    ensures Times(SumSquares(Scale(ws, length)), l2) == SumSquares(ws)
    decreases |ws|
  {
    if ws != [] {
      var n := |ws| - 1;
      assert Scale(ws, length)[..n] == Scale(ws[..n], length);
      SumSquaresScale(ws[..n], length, l2);
      var v := Scale(ws, length)[n];
      var a := SumSquares(Scale(ws[..n], length));
      assert v * length == ws[n];
      calc {
        Times(SumSquares(Scale(ws, length)), l2);
        (a + v * v) * l2;
        a * l2 + (v * v) * l2;
        { assert (v * v) * l2 == (v * length) * (v * length);
          assert a * l2 == Times(a, l2); }
        SumSquares(ws[..n]) + (v * length) * (v * length);
        SumSquares(ws[..n]) + ws[n] * ws[n];
        SumSquares(ws);
      }
    }
  }

  /** The ids and unit-length weights written for one vertex
      (dae_parser.py:308-320), for the vertex's position index `posId`.
      `math.sqrt` is the parameter sqrt; its argument is a sum of squares
      and never negative. */
  function VertexInfluences(weights: seq<Influences>, posId: int, sqrt: real -> real): (r: Result<(seq<int>, seq<real>)>)
    ensures r.Ok? ==> |r.value.0| == 4 && |r.value.1| == 4
    ensures r.Err? ==> r.error == IndexOutOfRange || r.error == ZeroDivision
    ensures At(weights, posId).Err? ==> r == Err(IndexOutOfRange)
  {
    var inf :- At(weights, posId);
    var fitted := Fit4(SortDesc(Zip(inf.ids, inf.weights)));
    var ws := Weights(fitted);
    var length := sqrt(SumSquares(ws));
    if length == 0.0 then Err(ZeroDivision)
    else Ok((Ids(fitted), Scale(ws, length)))
  }

  /** With an exact square root, the written weights have unit length. */
  lemma UnitWeights(weights: seq<Influences>, posId: int, sqrt: real -> real)
    requires VertexInfluences(weights, posId, sqrt).Ok?
    requires forall x: real :: x >= 0.0 ==> sqrt(x) * sqrt(x) == x
    requires sqrt(0.0) == 0.0
    ensures SumSquares(VertexInfluences(weights, posId, sqrt).value.1) == 1.0
  {
    var inf := At(weights, posId).value;
    var ws := Weights(Fit4(SortDesc(Zip(inf.ids, inf.weights))));
    var total := SumSquares(ws);
    var length := sqrt(total);
    assert length != 0.0;
    assert VertexInfluences(weights, posId, sqrt).value.1 == Scale(ws, length);
    SumSquaresScale(ws, length, total);
    UnitFactor(SumSquares(Scale(ws, length)), total);
  }

  lemma UnitFactor(x: real, t: real)
    requires Times(x, t) == t
    requires t != 0.0
    ensures x == 1.0
  {
    assert (x - 1.0) * t == 0.0;
  }

  /** A vertex whose weights are all zero has a zero norm: the division
      raises ZeroDivisionError (dae_parser.py:319-320). */
  lemma ZeroWeightsRaise(weights: seq<Influences>, posId: int, sqrt: real -> real)
    requires At(weights, posId).Ok?
    requires forall j :: 0 <= j < |At(weights, posId).value.weights| ==> At(weights, posId).value.weights[j] == 0.0
    requires sqrt(0.0) == 0.0
    ensures VertexInfluences(weights, posId, sqrt) == Err(ZeroDivision)
  {
    var inf := At(weights, posId).value;
    var z := Zip(inf.ids, inf.weights);
    var sorted := SortDesc(z);
    SortDescProperties(z);
    var fitted := Fit4(sorted);
    forall i | 0 <= i < 4
      ensures fitted[i].1 == 0.0
    {
      if i < |sorted| {
        assert fitted[i] == sorted[i];
        assert sorted[i] in multiset(z);
      }
    }
    SumSquaresZero(Weights(fitted));
  }

  lemma {:induction false} SumSquaresZero(ws: seq<real>)
    requires forall i :: 0 <= i < |ws| ==> ws[i] == 0.0
    ensures SumSquares(ws) == 0.0
    decreases |ws|
  {
    if ws != [] {
      SumSquaresZero(ws[..|ws| - 1]);
    }
  }

  /** The four pairs kept are the heaviest: sorted, taken from the vertex's
      own pairs, and no dropped pair is heavier than a kept one. */
  lemma KeptAreHeaviest(ids: seq<int>, weights: seq<real>)
    ensures var z := Zip(ids, weights);
      var sorted := SortDesc(z);
      && multiset(sorted) == multiset(z)
      && (|z| >= 4 ==> Fit4(sorted) == sorted[..4]
                       && forall i, j :: 0 <= i < 4 <= j < |sorted| ==> sorted[i].1 >= sorted[j].1)
  {
    SortDescProperties(Zip(ids, weights));
  }
}
