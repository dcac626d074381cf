/** The parts of Python's value semantics the converter relies on:
    exceptions as an error value, list indexing and slicing (negative
    indices count from the end, slices clamp), `list.index`, `str.endswith`,
    and the `values[i:i + n] for i in range(0, len(values), n)` chunking. */
module Py {
  import Common

  /** The exceptions the converter can raise. */
  datatype Error =
    | NoNamespace      // `tag.index('}')` on a tag without '}' (ValueError)
    | NoneValue        // attribute access on, or iteration over, None
    | BadLiteral       // float() or int() of a token that is not a literal
    | IndexOutOfRange  // IndexError
    | NotInList        // list.index of a missing value (ValueError)
    | ZeroDivision     // ZeroDivisionError
    | PackRange        // struct.error: an integer outside the format's range
    | PackCount        // struct.error: wrong number of values for the format

  datatype Result<+T> = Ok(value: T) | Err(error: Error) {
    predicate IsFailure() { Err? }
    function PropagateFailure<U>(): Result<U> requires Err? { Err(error) }
    function Extract(): T requires Ok? { value }
  }

  /** `s[i]` on a Python list. */
  function At<T>(s: seq<T>, i: int): (r: Result<T>)
    ensures r.Ok? <==> -|s| <= i < |s|
  {
    if 0 <= i < |s| then Ok(s[i])
    else if -|s| <= i < 0 then Ok(s[|s| + i])
    else Err(IndexOutOfRange)
  }

  /** A slice bound after Python's normalisation: negative bounds count from
      the end, and every bound is clamped to [0, n]. */
  function SliceBound(i: int, n: nat): (r: nat)
    ensures r <= n
  {
    if i < 0 then (if i + n < 0 then 0 else i + n)
    else if i > n then n
    else i
  }

  /** `s[lo:hi]` on a Python list: never fails, may be shorter than hi - lo. */
  function Slice<T>(s: seq<T>, lo: int, hi: int): seq<T>
  {
    var a, b := SliceBound(lo, |s|), SliceBound(hi, |s|);
    if a < b then s[a..b] else []
  }

  lemma SliceInRange<T>(s: seq<T>, lo: int, hi: int)
    requires 0 <= lo <= hi <= |s|
    ensures Slice(s, lo, hi) == s[lo..hi]
  {
  }

  /** `s.index(x)`: the position of the first occurrence of x. */
  function IndexOf<T(==)>(s: seq<T>, x: T): (r: Result<nat>)
    ensures r.Ok? <==> x in s
    ensures r.Ok? ==> r.value < |s| && s[r.value] == x && x !in s[..r.value]
    ensures r.Err? ==> r.error == NotInList
  {
    if s == [] then Err(NotInList)
    else if s[0] == x then Ok(0)
    else
      var r := IndexOf(s[1..], x);
      assert s[1..] == s[1..];
      if r.Err? then Err(NotInList)
      else
        assert s[..r.value + 1] == [s[0]] + s[1..][..r.value];
        Ok(r.value + 1)
  }

  /** Appending an element does not move earlier first occurrences; the
      appended element is found at the end when it is new. */
  lemma IndexOfAppend<T>(s: seq<T>, x: T, y: T)
    ensures y in s ==> IndexOf(s + [x], y) == IndexOf(s, y)
    ensures y !in s && y == x ==> IndexOf(s + [x], y) == Ok(|s|)
    ensures y !in s && y != x ==> IndexOf(s + [x], y).Err?
  {
    if y in s {
      var p := IndexOf(s, y).value;
      assert (s + [x])[p] == y;
      assert (s + [x])[..p] == s[..p];
    } else if y == x {
      assert (s + [x])[|s|] == y;
      assert (s + [x])[..|s|] == s;
    }
  }

  /** `s.endswith(suffix)`. */
  predicate EndsWith(s: string, suffix: string)
  {
    |suffix| <= |s| && s[|s| - |suffix|..] == suffix
  }

  /** `[values[i:i + n] for i in range(0, len(values), n)]`. */
  function Chunks<T>(values: seq<T>, n: nat): (r: seq<seq<T>>)
    requires n > 0
    ensures forall i :: 0 <= i < |r| ==> 0 < |r[i]| <= n
    ensures forall i :: 0 <= i < |r| - 1 ==> |r[i]| == n
    decreases |values|
  {
    if values == [] then []
    else if |values| <= n then [values]
    else [values[..n]] + Chunks(values[n..], n)
  }

  /** Chunking loses nothing: the chunks concatenate to the input. */
  lemma {:induction false} ChunksConcat<T>(values: seq<T>, n: nat)
    requires n > 0
    ensures Common.Concat(Chunks(values, n)) == values
    decreases |values|
  {
    if values == [] {
    } else if |values| <= n {
      assert Chunks(values, n) == [values];
      Common.ConcatCons(values, []);
    } else {
      ChunksConcat(values[n..], n);
      Common.ConcatCons(values[..n], Chunks(values[n..], n));
      assert values == values[..n] + values[n..];
    }
  }
}
