/** The converter's output as 32-bit words: what `struct.pack` makes of
    the values it is given, and what the output file holds when the script
    stops, normally or on an exception. */
module Stream {
  import opened Common
  import opened Py

  /** One 32-bit word of the file, as an unsigned number. */
  type Word = x: int | 0 <= x < TWO_32

  /** `struct.pack("i", x)`: a signed 32-bit int in two's complement; a
      value outside the int range raises `struct.error`. */
  function PackInt(x: int): (r: Result<seq<Word>>)
    ensures r.Ok? <==> -TWO_31 <= x < TWO_31
    ensures r.Err? ==> r.error == PackRange
    ensures r.Ok? ==> |r.value| == 1 && Int32(r.value[0]) == x
  {
    if -TWO_31 <= x < TWO_31 then Ok([UInt32(x)]) else Err(PackRange)
  }

  /** `struct.pack("=" + "I" * len(xs), *xs)`: all or nothing; a value
      outside the unsigned range raises `struct.error`. */
  function PackUInts(xs: seq<int>): (r: Result<seq<Word>>)
    ensures r.Ok? <==> forall i :: 0 <= i < |xs| ==> 0 <= xs[i] < TWO_32
    ensures r.Err? ==> r.error == PackRange
    ensures r.Ok? ==> r.value == xs
  {
    if forall i :: 0 <= i < |xs| ==> 0 <= xs[i] < TWO_32 then
      Ok(seq(|xs|, i requires 0 <= i < |xs| => xs[i] as Word))
    else Err(PackRange)
  }

  /** The words of a sequence of floats, each stored as a 32-bit float;
      `f32` is the IEEE single-precision encoding, rounding included. */
  function FloatWords(xs: seq<real>, f32: real -> Word): (r: seq<Word>)
    ensures |r| == |xs| && forall i :: 0 <= i < |xs| ==> r[i] == f32(xs[i])
  {
    seq(|xs|, i requires 0 <= i < |xs| => f32(xs[i]))
  }

  lemma FloatWordsAppend(xs: seq<real>, ys: seq<real>, f32: real -> Word)
    ensures FloatWords(xs + ys, f32) == FloatWords(xs, f32) + FloatWords(ys, f32)
  {
  }

  /** `struct.pack("=" + "f" * n, *xs)`: a format for n floats given a
      different number of values raises `struct.error`. */
  function PackFloats(xs: seq<real>, n: nat, f32: real -> Word): (r: Result<seq<Word>>)
    ensures r.Ok? <==> |xs| == n
    ensures r.Err? ==> r.error == PackCount
    ensures r.Ok? ==> r.value == FloatWords(xs, f32)
  {
    if |xs| == n then Ok(FloatWords(xs, f32)) else Err(PackCount)
  }

  /** What the script has written when it stops: the words, and the
      exception that stopped it, if one did. */
  datatype Emission = Emission(words: seq<Word>, failure: Option<Error>) {
    /** Going on with `next`, unless this part has already raised. */
    function Then(next: Emission): Emission
    {
      if failure.Some? then this else Emission(words + next.words, next.failure)
    }
  }

  /** `f.write(struct.pack(...))`: a pack that raises writes nothing. */
  function Packed(r: Result<seq<Word>>): (e: Emission)
    ensures r.Ok? <==> e.failure.None?
  {
    match r
    case Ok(ws) => Emission(ws, None)
    case Err(err) => Emission([], Some(err))
  }

  /** The parts written one after the other, up to the first that raises. */
  function Sequence(es: seq<Emission>): Emission
  {
    if es == [] then Emission([], None) else Sequence(es[..|es| - 1]).Then(es[|es| - 1])
  }

  /** The words of each part. */
  function WordsOf(es: seq<Emission>): (r: seq<seq<Word>>)
    ensures |r| == |es| && forall i :: 0 <= i < |es| ==> r[i] == es[i].words
  {
    seq(|es|, i requires 0 <= i < |es| => es[i].words)
  }

  predicate AllWritten(es: seq<Emission>)
  {
    forall i :: 0 <= i < |es| ==> es[i].failure.None?
  }

  /** A sequence of parts raises exactly when one of its parts does; when
      none does, the file holds the words of all parts in order. */
  lemma {:induction false} SequenceWritten(es: seq<Emission>)
    ensures Sequence(es).failure.None? <==> AllWritten(es)
    ensures AllWritten(es) ==> Sequence(es).words == Concat(WordsOf(es))
    decreases |es|
  {
    if es != [] {
      var n := |es| - 1;
      SequenceWritten(es[..n]);
      assert WordsOf(es)[..n] == WordsOf(es[..n]);
      if Sequence(es[..n]).failure.None? {
        assert AllWritten(es[..n]);
      } else {
        assert !AllWritten(es[..n]);
        var i :| 0 <= i < n && es[..n][i].failure.Some?;
        assert es[i].failure.Some?;
      }
    }
  }

  /** Parts that are all written and all n words long: the file holds n
      words per part, and cutting it into n-word records gives the parts
      back, which is how a reader of fixed-size records sees them. */
  lemma SequenceRecords(es: seq<Emission>, n: nat)
    requires n > 0 && AllWritten(es)
    requires forall i :: 0 <= i < |es| ==> |es[i].words| == n
    ensures Sequence(es).failure.None?
    ensures |Sequence(es).words| == n * |es| && Records(Sequence(es).words, n) == WordsOf(es)
  {
    SequenceWritten(es);
    RecordsOfConcat(WordsOf(es), n);
  }

  /** Encoding a concatenation of float lists encodes each list in turn. */
  lemma {:induction false} FloatWordsConcat(xss: seq<seq<real>>, f32: real -> Word)
    ensures FloatWords(Concat(xss), f32) == Concat(seq(|xss|, i requires 0 <= i < |xss| => FloatWords(xss[i], f32)))
    decreases |xss|
  {
    if xss != [] {
      var m := |xss| - 1;
      FloatWordsConcat(xss[..m], f32);
      FloatWordsAppend(Concat(xss[..m]), xss[m], f32);
      var all := seq(|xss|, i requires 0 <= i < |xss| => FloatWords(xss[i], f32));
      assert all[..m] == seq(m, i requires 0 <= i < m => FloatWords(xss[..m][i], f32));
    }
  }

  /** The loop step: one more part after the parts before it. */
  lemma SequenceStep(es: seq<Emission>, k: nat)
    requires k < |es|
    ensures Sequence(es[..k + 1]) == Sequence(es[..k]).Then(es[k])
  {
    assert es[..k + 1][..k] == es[..k];
  }

  /** Once a prefix has raised, the parts after it change nothing. */
  lemma {:induction false} SequenceStops(es: seq<Emission>, k: nat)
    requires k <= |es| && Sequence(es[..k]).failure.Some?
    ensures Sequence(es) == Sequence(es[..k])
    decreases |es| - k
  {
    if k == |es| {
      assert es[..k] == es;
    } else {
      SequenceStep(es, k);
      SequenceStops(es, k + 1);
    }
  }

  /** One turn of a loop that writes the parts in order: the file held the
      words of the parts before k, and part k appended its words. */
  lemma LoopStep(es: seq<Emission>, k: nat, base: seq<Word>, before: seq<Word>, after: seq<Word>, failure: Option<Error>)
    requires k < |es|
    requires before == base + Sequence(es[..k]).words && Sequence(es[..k]).failure.None?
    requires after == before + es[k].words && failure == es[k].failure
    ensures after == base + Sequence(es[..k + 1]).words
    ensures failure == Sequence(es[..k + 1]).failure
    ensures failure.Some? ==> Sequence(es) == Sequence(es[..k + 1])
  {
    SequenceGrows(es, k, base, before, after);
    if failure.Some? {
      SequenceStops(es, k + 1);
    }
  }

  lemma SequenceGrows(es: seq<Emission>, k: nat, base: seq<Word>, before: seq<Word>, after: seq<Word>)
    requires k < |es|
    requires before == base + Sequence(es[..k]).words && Sequence(es[..k]).failure.None?
    requires after == before + es[k].words
    ensures after == base + Sequence(es[..k + 1]).words && es[k].failure == Sequence(es[..k + 1]).failure
  {
    SequenceStep(es, k);
    assert after == base + (Sequence(es[..k]).words + es[k].words);
  }

  /** One more write after parts that all went through. */
  lemma ChainStep(e: Emission, next: Emission, base: seq<Word>, before: seq<Word>, after: seq<Word>, failure: Option<Error>)
    requires before == base + e.words && e.failure.None?
    requires after == before + next.words && failure == next.failure
    ensures after == base + e.Then(next).words && failure == e.Then(next).failure
  {
  }

  /** `Then` regroups freely. */
  lemma ThenAssociative(a: Emission, b: Emission, c: Emission)
    ensures a.Then(b).Then(c) == a.Then(b.Then(c))
  {
  }

  /** Two runs of parts, one after the other, are one run. */
  lemma {:induction false} SequenceAppend(es: seq<Emission>, fs: seq<Emission>)
    ensures Sequence(es + fs) == Sequence(es).Then(Sequence(fs))
    decreases |fs|
  {
    if fs == [] {
      assert es + fs == es;
    } else {
      var m := |fs| - 1;
      assert (es + fs)[..|es + fs| - 1] == es + fs[..m];
      SequenceAppend(es, fs[..m]);
      ThenAssociative(Sequence(es), Sequence(fs[..m]), fs[m]);
    }
  }

  /** Writing groups of parts group after group writes what one run over
      all their parts writes, and stops at the same exception. */
  lemma {:induction false} SequenceFlattens(ess: seq<seq<Emission>>)
    ensures Sequence(seq(|ess|, i requires 0 <= i < |ess| => Sequence(ess[i]))) == Sequence(Concat(ess))
    decreases |ess|
  {
    if ess != [] {
      var m := |ess| - 1;
      var outer := seq(|ess|, i requires 0 <= i < |ess| => Sequence(ess[i]));
      assert outer[..m] == seq(m, i requires 0 <= i < m => Sequence(ess[..m][i]));
      SequenceFlattens(ess[..m]);
      SequenceAppend(Concat(ess[..m]), ess[m]);
    }
  }

  /** When no part raises, `Then` concatenates the words. */
  lemma ThenWritten(a: Emission, b: Emission)
    ensures a.Then(b).failure.None? <==> a.failure.None? && b.failure.None?
    ensures a.failure.None? ==> a.Then(b).words == a.words + b.words
  {
  }
}
