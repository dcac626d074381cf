/** Value-level helpers shared by the converter model and the engine model:
    an optional value, sums and prefix sums of integer sequences, sequence
    concatenation, and C's 32-bit integer conversions. */
module Common {

  datatype Option<+T> = None | Some(value: T) {
    predicate IsFailure() { None? }
    function PropagateFailure<U>(): Option<U> requires None? { None }
    function Extract(): T requires Some? { value }
  }

  const TWO_32: int := 0x1_0000_0000
  const TWO_31: int := 0x8000_0000

  /** Sum of a sequence of integers. */
  function Sum(s: seq<int>): int
  {
    if s == [] then 0 else Sum(s[..|s| - 1]) + s[|s| - 1]
  }

  lemma {:induction false} SumAppend(s: seq<int>, t: seq<int>)
    ensures Sum(s + t) == Sum(s) + Sum(t)
    decreases |t|
  {
    if t == [] {
      assert s + t == s;
    } else {
      assert (s + t)[..|s + t| - 1] == s + t[..|t| - 1];
      SumAppend(s, t[..|t| - 1]);
    }
  }

  lemma {:induction false} SumNonNegative(s: seq<int>)
    requires forall i :: 0 <= i < |s| ==> s[i] >= 0
    ensures Sum(s) >= 0
    decreases |s|
  {
    if s != [] { SumNonNegative(s[..|s| - 1]); }
  }

  /** Prefix sums: element i is the sum of the elements before position i. */
  function PrefixSums(s: seq<int>): (r: seq<int>)
    ensures |r| == |s|
    ensures forall i :: 0 <= i < |s| ==> r[i] == Sum(s[..i])
  {
    seq(|s|, i requires 0 <= i < |s| => Sum(s[..i]))
  }

  /** Concatenation of a sequence of sequences. */
  function Concat<T>(ss: seq<seq<T>>): seq<T>
  {
    if ss == [] then [] else Concat(ss[..|ss| - 1]) + ss[|ss| - 1]
  }

  /** The lengths of the parts of a sequence of sequences. */
  function Lengths<T>(ss: seq<seq<T>>): (r: seq<int>)
    ensures |r| == |ss| && forall i :: 0 <= i < |ss| ==> r[i] == |ss[i]|
  {
    seq(|ss|, i requires 0 <= i < |ss| => |ss[i]|)
  }

  lemma {:induction false} ConcatLength<T>(ss: seq<seq<T>>)
    ensures |Concat(ss)| == Sum(Lengths(ss))
    decreases |ss|
  {
    if ss != [] {
      ConcatLength(ss[..|ss| - 1]);
      assert Lengths(ss)[..|ss| - 1] == Lengths(ss[..|ss| - 1]);
    }
  }

  lemma {:induction false} ConcatAppend<T>(ss: seq<seq<T>>, tt: seq<seq<T>>)
    ensures Concat(ss + tt) == Concat(ss) + Concat(tt)
    decreases |tt|
  {
    if tt == [] {
      assert ss + tt == ss;
    } else {
      assert (ss + tt)[..|ss + tt| - 1] == ss + tt[..|tt| - 1];
      ConcatAppend(ss, tt[..|tt| - 1]);
    }
  }

  /** Part k of a concatenation starts at the sum of the lengths before it:
      this is how a flat array plus prefix-sum offsets is read back. */
  lemma {:induction false} ConcatSlice<T>(ss: seq<seq<T>>, k: nat)
    requires k < |ss|
    ensures 0 <= Sum(Lengths(ss)[..k]) && Sum(Lengths(ss)[..k]) + |ss[k]| <= |Concat(ss)|
    ensures Concat(ss)[Sum(Lengths(ss)[..k])..Sum(Lengths(ss)[..k]) + |ss[k]|] == ss[k]
  {
    var pre, post := ss[..k], ss[k + 1..];
    assert ss == pre + [ss[k]] + post;
    ConcatAppend(pre + [ss[k]], post);
    ConcatAppend(pre, [ss[k]]);
    assert Concat([ss[k]]) == ss[k] by {
      assert [ss[k]][..0] == [];
    }
    ConcatLength(pre);
    assert Lengths(ss)[..k] == Lengths(pre);
    SumNonNegative(Lengths(pre));
    var c := Concat(ss);
    assert c == Concat(pre) + ss[k] + Concat(post);
    assert c[|Concat(pre)|..|Concat(pre)| + |ss[k]|] == ss[k];
  }

  lemma ConcatCons<T>(x: seq<T>, ss: seq<seq<T>>)
    ensures Concat([x] + ss) == x + Concat(ss)
  {
    ConcatAppend([x], ss);
    assert [x][..0] == [];
  }

  /** A concatenation of one-element parts is the sequence of those
      elements. */
  lemma {:induction false} ConcatSingletons<T>(ss: seq<seq<T>>)
    requires forall i :: 0 <= i < |ss| ==> |ss[i]| == 1
    ensures |Concat(ss)| == |ss| && forall i :: 0 <= i < |ss| ==> Concat(ss)[i] == ss[i][0]
    decreases |ss|
  {
    if ss != [] {
      ConcatSingletons(ss[..|ss| - 1]);
    }
  }

  /** Parts of k·n elements each concatenate to n times the sum of the k's. */
  lemma {:induction false} ConcatScaledLength<T>(ss: seq<seq<T>>, counts: seq<int>, n: nat)
    requires |ss| == |counts| && forall i :: 0 <= i < |ss| ==> |ss[i]| == n * counts[i]
    ensures |Concat(ss)| == n * Sum(counts)
    decreases |ss|
  {
    if ss != [] {
      var m := |ss| - 1;
      ConcatScaledLength(ss[..m], counts[..m], n);
      assert |Concat(ss)| == |Concat(ss[..m])| + |ss[m]|;
      assert Sum(counts) == Sum(counts[..m]) + counts[m];
      assert n * Sum(counts) == n * Sum(counts[..m]) + n * counts[m];
    }
  }

  /** Parts of n elements each concatenate to n times their number. */
  lemma {:induction false} ConcatUniformLength<T>(ss: seq<seq<T>>, n: nat)
    requires forall i :: 0 <= i < |ss| ==> |ss[i]| == n
    ensures |Concat(ss)| == n * |ss|
    decreases |ss|
  {
    if ss != [] {
      var m := |ss| - 1;
      ConcatUniformLength(ss[..m], n);
      assert |Concat(ss)| == |Concat(ss[..m])| + n;
      assert n * |ss| == n * m + n;
    }
  }

  /** Cuts a sequence into consecutive records of n elements (a trailing
      part shorter than n is dropped). */
  function Records<T>(s: seq<T>, n: nat): (r: seq<seq<T>>)
    requires n > 0
    ensures forall i :: 0 <= i < |r| ==> |r[i]| == n
    decreases |s|
  {
    if |s| < n then [] else [s[..n]] + Records(s[n..], n)
  }

  /** Concatenating equal-length records and cutting the result into records
      of that length gives the records back. */
  lemma {:induction false} RecordsOfConcat<T>(ss: seq<seq<T>>, n: nat)
    requires n > 0
    requires forall i :: 0 <= i < |ss| ==> |ss[i]| == n
    ensures |Concat(ss)| == n * |ss|
    ensures Records(Concat(ss), n) == ss
    decreases |ss|
  {
    if ss != [] {
      var rest := ss[1..];
      assert ss == [ss[0]] + rest;
      ConcatCons(ss[0], rest);
      RecordsOfConcat(rest, n);
      var c := Concat(ss);
      assert c[..n] == ss[0] && c[n..] == Concat(rest);
      assert n * |ss| == n * |rest| + n;
    }
  }

  /** Cutting k·n elements into records of n gives k records that
      concatenate back to the elements. */
  lemma {:induction false} RecordsOfFlat<T>(s: seq<T>, n: nat, k: nat)
    requires n > 0 && |s| == n * k
    ensures |Records(s, n)| == k && Concat(Records(s, n)) == s
    decreases k
  {
    if k > 0 {
      assert |s[n..]| == n * (k - 1);
      RecordsOfFlat(s[n..], n, k - 1);
      ConcatCons(s[..n], Records(s[n..], n));
      assert s[..n] + s[n..] == s;
    }
  }

  /** C's conversion of an integer to a signed 32-bit int (wrap-around). */
  function Int32(x: int): (r: int)
    ensures -TWO_31 <= r < TWO_31
    ensures (r - x) % TWO_32 == 0
  {
    (x + TWO_31) % TWO_32 - TWO_31
  }

  /** C's conversion of an integer to `unsigned` (reduction modulo 2^32). */
  function UInt32(x: int): (r: int)
    ensures 0 <= r < TWO_32
    ensures (r - x) % TWO_32 == 0
  {
    x % TWO_32
  }

  lemma Int32OfSmall(x: int)
    requires -TWO_31 <= x < TWO_31
    ensures Int32(x) == x
  {
  }

  lemma UInt32OfSmall(x: int)
    requires 0 <= x < TWO_32
    ensures UInt32(x) == x
  {
  }

  /** Accumulating into a wrapped int gives the wrapped total. */
  lemma Int32Accumulate(a: int, b: int)
    ensures Int32(Int32(a) + b) == Int32(a + b)
    ensures UInt32(Int32(a)) == UInt32(a)
  {
    var k := (Int32(a) - a) / TWO_32;
    assert Int32(a) == a + k * TWO_32;
    ModShift(a + b + TWO_31, k);
    ModShift(a, k);
  }

  lemma ModShift(x: int, k: int)
    ensures (x + k * TWO_32) % TWO_32 == x % TWO_32
  {
  }

  /** Each position of a sequence holds a different value. */
  predicate Distinct<T(==)>(s: seq<T>)
  {
    forall i, j :: 0 <= i < j < |s| ==> s[i] != s[j]
  }

  lemma DistinctAppend<T>(s: seq<T>, t: seq<T>)
    requires Distinct(s) && Distinct(t) && forall x :: x in s ==> x !in t
    ensures Distinct(s + t)
  {
    forall i, j | 0 <= i < j < |s + t|
      ensures (s + t)[i] != (s + t)[j]
    {
      if i < |s| <= j {
        assert (s + t)[i] in s && (s + t)[j] in t;
      }
    }
  }
}
