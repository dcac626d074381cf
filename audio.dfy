/** The engine's sound slots (src/audio.c:11-105): a fixed array of sounds
    whose free slots form a linked list through their `next` fields, from
    `availableHead` to `availableTail`; `playSound` takes the head slot and
    the mixing callback puts finished sounds back after the tail. The
    slots are used from one thread at a time here. */
module Audio {
  import opened Common

  /** `NO_NEXT`: the end of the free list. */
  const NO_NEXT: int := -1

  /** `TIMES_INF`: a sound that repeats for ever. The header that defines
      it is not part of this model; it is taken to be -1. */
  const TIMES_INF: int := -1

  /** A slot: the samples, the part of them that plays (`start` to `end`),
      the play position, the channel volumes, how many more times the
      sound plays, whether the slot is stopped, and the free-list link. */
  datatype Sound = Sound(data: seq<int>, start: nat, end: nat, pos: nat, volL: real, volR: real,
                         times: int, stopped: bool, next: int)

  /** What mixing a playing sound needs: the position inside the played
      part, an even number of samples left and in the played part (left
      and right samples come in pairs), and either samples to play or a
      finite number of plays (otherwise the mixing loop never ends). */
  predicate Playable(s: Sound)
  {
    && s.start <= s.pos <= s.end <= |s.data|
    && (s.end - s.start) % 2 == 0 && (s.end - s.pos) % 2 == 0
    && (s.start < s.end || s.times >= 1)
  }

  /** One pass of the mixing loop: buffer samples `at` to `at + count`
      take the sound's samples from `from` on. */
  datatype Segment = Segment(at: nat, from: nat, count: nat)

  /** A sound after one callback: its position and remaining plays, and
      the passes that mixed it. */
  datatype Voice = Voice(pos: nat, times: int, segments: seq<Segment>)

  /** The per-sound loop of `audioCallback` (src/audio.c:51-76) as the
      source has it: every pass mixes into the buffer from sample 0 and
      takes up to a whole buffer of samples (`min(left, size)`), however
      much of the buffer earlier passes filled. A sound that runs out starts
      again from `start`, with one play fewer unless it repeats for ever,
      and the loop ends once it has no plays left. */
  function PassesAsWritten(start: nat, end: nat, pos: nat, times: int, samples: nat, written: nat): (v: Voice)
    requires start <= pos <= end
    requires written >= samples || start < end || times >= 1
    ensures start <= v.pos <= end
    ensures start == end && written < samples ==> v.times == 0
    ensures written >= samples ==> v == Voice(pos, times, [])
    decreases if written < samples then samples - written else 0, if start == end then times else 0, if pos == end then 1 else 0
  {
    if written >= samples then Voice(pos, times, [])
    else
      var left := end - pos;
      var toWrite := if left < samples then left else samples;
      var seg := Segment(0, pos, toWrite);
      if left < samples then
        var t := if times == TIMES_INF then times else times - 1;
        if t == 0 then Voice(start, 0, [seg])
        else
          var rest := PassesAsWritten(start, end, start, t, samples, written + toWrite);
          Voice(rest.pos, rest.times, [seg] + rest.segments)
      else Voice(pos + toWrite, times, [seg])
  }

  /** Each pass of the source's loop mixes into the buffer from sample 0
      and takes `min(left, size)` samples, `left` being what remains of the
      played part from where the pass reads. */
  predicate FromBufferStart(segments: seq<Segment>, end: nat, samples: nat)
  {
    forall k :: 0 <= k < |segments| ==>
      segments[k].at == 0 && segments[k].count == Min(end - segments[k].from, samples)
  }

  lemma FromBufferStartCons(seg: Segment, segments: seq<Segment>, end: nat, samples: nat)
    requires seg.at == 0 && seg.count == Min(end - seg.from, samples)
    requires FromBufferStart(segments, end, samples)
    ensures FromBufferStart([seg] + segments, end, samples)
  {
    var all := [seg] + segments;
    assert forall k :: 0 < k < |all| ==> all[k] == segments[k - 1];
  }

  /** What every pass of the source's loop does: it mixes into the buffer
      from sample 0, takes `min(left, size)` samples, and reads inside the
      played part, the first pass from the position and every later one
      from the start. The loop only ends early when the sound has no plays
      left. */
  lemma PassesAsWrittenShape(start: nat, end: nat, pos: nat, times: int, samples: nat, written: nat)
    requires start <= pos <= end
    requires written >= samples || start < end || times >= 1
    ensures var v := PassesAsWritten(start, end, pos, times, samples, written);
      && FromBufferStart(v.segments, end, samples)
      && ReadsPlayed(v.segments, start, end, pos)
      && (v.times != 0 ==> written + Total(v.segments) >= samples)
  {
    PassesAsWrittenStart(start, end, pos, times, samples, written);
    PassesAsWrittenRead(start, end, pos, times, samples, written);
    PassesAsWrittenFill(start, end, pos, times, samples, written);
  }

  lemma {:induction false} PassesAsWrittenStart(start: nat, end: nat, pos: nat, times: int, samples: nat, written: nat)
    requires start <= pos <= end
    requires written >= samples || start < end || times >= 1
    ensures FromBufferStart(PassesAsWritten(start, end, pos, times, samples, written).segments, end, samples)
    decreases if written < samples then samples - written else 0, if start == end then times else 0, if pos == end then 1 else 0
  {
    if written < samples {
      var left := end - pos;
      var t := if times == TIMES_INF then times else times - 1;
      PassesAsWrittenStep(start, end, pos, times, samples, written);
      if left < samples && t != 0 {
        PassesAsWrittenStart(start, end, start, t, samples, written + left);
        var rest := PassesAsWritten(start, end, start, t, samples, written + left).segments;
        FromBufferStartCons(Segment(0, pos, left), rest, end, samples);
      }
    }
  }

  lemma {:induction false} PassesAsWrittenRead(start: nat, end: nat, pos: nat, times: int, samples: nat, written: nat)
    requires start <= pos <= end
    requires written >= samples || start < end || times >= 1
    ensures ReadsPlayed(PassesAsWritten(start, end, pos, times, samples, written).segments, start, end, pos)
    decreases if written < samples then samples - written else 0, if start == end then times else 0, if pos == end then 1 else 0
  {
    if written < samples {
      var left := end - pos;
      var t := if times == TIMES_INF then times else times - 1;
      PassesAsWrittenStep(start, end, pos, times, samples, written);
      if left < samples && t != 0 {
        PassesAsWrittenRead(start, end, start, t, samples, written + left);
        var rest := PassesAsWritten(start, end, start, t, samples, written + left).segments;
        ReadsCons(Segment(0, pos, left), rest, start, end);
      }
    }
  }

  lemma {:induction false} PassesAsWrittenFill(start: nat, end: nat, pos: nat, times: int, samples: nat, written: nat)
    requires start <= pos <= end
    requires written >= samples || start < end || times >= 1
    ensures var v := PassesAsWritten(start, end, pos, times, samples, written);
      v.times != 0 ==> written + Total(v.segments) >= samples
    decreases if written < samples then samples - written else 0, if start == end then times else 0, if pos == end then 1 else 0
  {
    if written < samples {
      var left := end - pos;
      var t := if times == TIMES_INF then times else times - 1;
      PassesAsWrittenStep(start, end, pos, times, samples, written);
      if left < samples && t != 0 {
        PassesAsWrittenFill(start, end, start, t, samples, written + left);
        var rest := PassesAsWritten(start, end, start, t, samples, written + left).segments;
        assert ([Segment(0, pos, left)] + rest)[1..] == rest;
      }
    }
  }

  function Min(a: int, b: int): int
  {
    if a < b then a else b
  }

  /** Passes of an even number of samples over a played part of even
      length leave an even number of samples to its end. */
  lemma {:induction false} PassesAsWrittenEven(start: nat, end: nat, pos: nat, times: int, samples: nat, written: nat)
    requires start <= pos <= end
    requires written >= samples || start < end || times >= 1
    requires (end - start) % 2 == 0 && (end - pos) % 2 == 0 && samples % 2 == 0
    ensures (end - PassesAsWritten(start, end, pos, times, samples, written).pos) % 2 == 0
    decreases if written < samples then samples - written else 0, if start == end then times else 0, if pos == end then 1 else 0
  {
    if written < samples {
      var left := end - pos;
      var toWrite := if left < samples then left else samples;
      var t := if times == TIMES_INF then times else times - 1;
      if left < samples && t != 0 {
        PassesAsWrittenEven(start, end, start, t, samples, written + toWrite);
      } else if left >= samples {
        EvenDiff(left, samples);
      }
    }
  }

  /** One pass of the source's loop: the outcome is that pass followed by
      the outcome from the state it leaves. */
  lemma PassesAsWrittenStep(start: nat, end: nat, pos: nat, times: int, samples: nat, written: nat)
    requires start <= pos <= end && written < samples
    requires start < end || times >= 1
    ensures var left := end - pos;
      var toWrite := if left < samples then left else samples;
      var t := if times == TIMES_INF then times else times - 1;
      var v := PassesAsWritten(start, end, pos, times, samples, written);
      && (left >= samples ==> v == Voice(pos + samples, times, [Segment(0, pos, samples)]))
      && (left < samples && t == 0 ==> v == Voice(start, 0, [Segment(0, pos, left)]))
      && (left < samples && t != 0 ==>
            var rest := PassesAsWritten(start, end, start, t, samples, written + left);
            v == Voice(rest.pos, rest.times, [Segment(0, pos, left)] + rest.segments))
  {
  }

  /** When the sound does not run out during the callback, the source's
      loop and the intended one agree: a single pass of the whole buffer.
      The two differ only for a sound that starts again within a callback. */
  lemma AsWrittenAgreesWithoutWrap(start: nat, end: nat, pos: nat, times: int, samples: nat)
    requires start <= pos <= end && samples <= end - pos
    requires samples == 0 || start < end || times >= 1
    ensures PassesAsWritten(start, end, pos, times, samples, 0) == Passes(start, end, pos, times, samples, 0)
  {
  }

  /** Two inputs on which the source's loop and the intended one part.
      A sound two samples from its end, played twice, in a four-sample
      callback: the source mixes the two last samples and then four samples
      from the start into the same first four buffer samples, so the
      buffer's first two samples get both and the sound moves on by six.
      A four-sample sound two samples from its end, played twice, in a
      six-sample callback: the source's second pass takes the whole sound
      again, finds it shorter than the buffer and uses up the last play, so
      the slot is freed; the intended loop ends that pass at the buffer's
      end with one play left. */
  lemma LoopRestartsAtBufferStart()
    ensures PassesAsWritten(0, 10, 8, 2, 4, 0) == Voice(4, 1, [Segment(0, 8, 2), Segment(0, 0, 4)])
    ensures Passes(0, 10, 8, 2, 4, 0) == Voice(2, 1, [Segment(0, 8, 2), Segment(2, 0, 2)])
    ensures PassesAsWritten(0, 4, 2, 2, 6, 0) == Voice(0, 0, [Segment(0, 2, 2), Segment(0, 0, 4)])
    ensures Passes(0, 4, 2, 2, 6, 0) == Voice(4, 1, [Segment(0, 2, 2), Segment(2, 0, 4)])
  {
  }

  /** The per-sound loop as intended: each pass mixes into the buffer from
      where the last pass stopped and takes no more than the rest of the
      buffer; a sound that runs out starts again from `start`, with one
      play fewer unless it repeats for ever, and stops once it has no plays
      left. */
  function Passes(start: nat, end: nat, pos: nat, times: int, samples: nat, written: nat): (v: Voice)
    requires start <= pos <= end && written <= samples
    requires written == samples || start < end || times >= 1
    ensures start <= v.pos <= end
    ensures start == end && written < samples ==> v.times == 0
    ensures written == samples ==> v == Voice(pos, times, [])
    decreases samples - written, if start == end then times else 0, if pos == end then 1 else 0
  {
    if written == samples then Voice(pos, times, [])
    else
      var left := end - pos;
      var room := samples - written;
      if left < room then
        var seg := Segment(written, pos, left);
        var t := if times == TIMES_INF then times else times - 1;
        if t == 0 then Voice(start, 0, [seg])
        else
          var rest := Passes(start, end, start, t, samples, written + left);
          Voice(rest.pos, rest.times, [seg] + rest.segments)
      else Voice(pos + room, times, [Segment(written, pos, room)])
  }

  /** The passes follow one another through the buffer: the first starts
      at `at`, each next one where the one before it stopped. */
  predicate Tiled(segments: seq<Segment>, at: nat)
  {
    segments == [] || (segments[0].at == at && Tiled(segments[1..], at + segments[0].count))
  }

  /** How many buffer samples the passes cover. */
  function Total(segments: seq<Segment>): nat
  {
    if segments == [] then 0 else segments[0].count + Total(segments[1..])
  }

  /** The intended loop fills the buffer without gaps or overlap: its
      passes tile the buffer from `written`, reach the buffer's end unless
      the sound stopped, and never run past it. */
  lemma {:induction false} PassesTile(start: nat, end: nat, pos: nat, times: int, samples: nat, written: nat)
    requires start <= pos <= end && written <= samples
    requires written == samples || start < end || times >= 1
    ensures var v := Passes(start, end, pos, times, samples, written);
      && Tiled(v.segments, written)
      && written + Total(v.segments) <= samples
      && (v.times != 0 ==> written + Total(v.segments) == samples)
    decreases samples - written, if start == end then times else 0, if pos == end then 1 else 0
  {
    if written < samples {
      var left := end - pos;
      var t := if times == TIMES_INF then times else times - 1;
      if left < samples - written && t != 0 {
        PassesTile(start, end, start, t, samples, written + left);
        var rest := Passes(start, end, start, t, samples, written + left).segments;
        assert ([Segment(written, pos, left)] + rest)[1..] == rest;
      }
    }
  }

  /** One pass of the intended loop: the outcome after it is the outcome
      from the state it leaves, which is the sound's start when it ran out,
      and the end of the buffer when the buffer filled up or the sound
      stopped. */
  lemma PassesStep(start: nat, end: nat, pos: nat, times: int, samples: nat, written: nat)
    requires start <= pos <= end && written < samples
    requires start < end || times >= 1
    ensures var left := end - pos;
      var t := if times == TIMES_INF then times else times - 1;
      var v := Passes(start, end, pos, times, samples, written);
      && (left >= samples - written ==> v.pos == pos + (samples - written) && v.times == times)
      && (left < samples - written && t == 0 ==> v.pos == start && v.times == 0)
      && (left < samples - written && t != 0 ==>
            v.pos == Passes(start, end, start, t, samples, written + left).pos
            && v.times == Passes(start, end, start, t, samples, written + left).times)
  {
  }

  /** The passes read only the played part of the sound: the first from
      the position, every later one from the start. */
  predicate ReadsPlayed(segments: seq<Segment>, start: nat, end: nat, pos: nat)
  {
    && (forall k :: 0 <= k < |segments| ==> start <= segments[k].from && segments[k].from + segments[k].count <= end)
    && (forall k :: 0 < k < |segments| ==> segments[k].from == start)
    && (|segments| > 0 ==> segments[0].from == pos)
  }

  lemma {:induction false} PassesRead(start: nat, end: nat, pos: nat, times: int, samples: nat, written: nat)
    requires start <= pos <= end && written <= samples
    requires written == samples || start < end || times >= 1
    ensures ReadsPlayed(Passes(start, end, pos, times, samples, written).segments, start, end, pos)
    decreases samples - written, if start == end then times else 0, if pos == end then 1 else 0
  {
    if written < samples {
      var left := end - pos;
      var room := samples - written;
      if left < room {
        var seg := Segment(written, pos, left);
        var t := if times == TIMES_INF then times else times - 1;
        if t != 0 {
          PassesRead(start, end, start, t, samples, written + left);
          var rest := Passes(start, end, start, t, samples, written + left);
          ReadsCons(seg, rest.segments, start, end);
        }
      }
    }
  }

  lemma ReadsCons(seg: Segment, segments: seq<Segment>, start: nat, end: nat)
    requires start <= seg.from && seg.from + seg.count <= end
    requires ReadsPlayed(segments, start, end, start)
    ensures ReadsPlayed([seg] + segments, start, end, seg.from)
  {
    var s := [seg] + segments;
    assert forall k :: 0 < k < |s| ==> s[k] == segments[k - 1];
  }

  /** The whole slot table: the sounds and the two ends of the free list. */
  datatype Slots = Slots(sounds: seq<Sound>, head: int, tail: int)

  /** Every playing slot can be mixed, and the tail names a slot. */
  predicate SlotsOk(st: Slots)
  {
    && 0 <= st.tail < |st.sounds|
    && forall i :: 0 <= i < |st.sounds| && !st.sounds[i].stopped ==> Playable(st.sounds[i])
  }

  /** `free` lists the free slots from head to tail: each links to the next,
      the tail ends the list, every free slot is stopped, and none is listed
      twice. */
  ghost predicate FreeList(st: Slots, free: seq<nat>)
  {
    && |free| >= 1 && free[0] == st.head && free[|free| - 1] == st.tail
    && (forall k :: 0 <= k < |free| ==> free[k] < |st.sounds| && st.sounds[free[k]].stopped)
    && (forall k :: 0 <= k < |free| - 1 ==> st.sounds[free[k]].next == free[k + 1])
    && (0 <= st.tail < |st.sounds| && st.sounds[st.tail].next == NO_NEXT)
    && Distinct(free)
  }

  ghost predicate SlotsValid(st: Slots, free: seq<nat>)
  {
    SlotsOk(st) && FreeList(st, free)
  }

  /** What one callback does to a playing sound, as the source's loop
      does it: every pass lies in the first `samples` samples of the buffer
      and reads inside the played part, and a sound that still has plays
      left can be mixed again by the next callback. */
  function Voiced(s: Sound, samples: nat): (v: Voice)
    requires Playable(s) && samples % 2 == 0
    ensures v.times != 0 ==> Playable(s.(pos := v.pos, times := v.times))
    ensures SegmentsFit(v.segments, samples, |s.data|)
  {
    PassesAsWrittenEven(s.start, s.end, s.pos, s.times, samples, 0);
    PassesAsWrittenShape(s.start, s.end, s.pos, s.times, samples, 0);
    PassesAsWritten(s.start, s.end, s.pos, s.times, samples, 0)
  }

  /** Every pass writes inside a buffer of `size` samples and reads inside
      `length` samples of sound. */
  predicate SegmentsFit(segments: seq<Segment>, size: nat, length: nat)
  {
    forall k :: 0 <= k < |segments| ==>
      segments[k].at + segments[k].count <= size && segments[k].from + segments[k].count <= length
  }

  /** The buffer after one pass: the samples it covers take the mix of
      their old value with the sound's sample, left and right volume in
      turn; the others are kept. */
  function MixedSegment(buf: seq<int>, s: Sound, seg: Segment, mix: (int, int, real) -> int): (r: seq<int>)
    requires seg.at + seg.count <= |buf| && seg.from + seg.count <= |s.data|
    ensures |r| == |buf|
  {
    seq(|buf|, k requires 0 <= k < |buf| =>
      if seg.at <= k < seg.at + seg.count then
        mix(buf[k], s.data[seg.from + (k - seg.at)], if (k - seg.at) % 2 == 0 then s.volL else s.volR)
      else buf[k])
  }

  /** The buffer after the passes, one after the other. */
  function Mixed(buf: seq<int>, s: Sound, segments: seq<Segment>, mix: (int, int, real) -> int): (r: seq<int>)
    requires SegmentsFit(segments, |buf|, |s.data|)
    ensures |r| == |buf|
  {
    if segments == [] then buf
    else
      var last := segments[|segments| - 1];
      MixedSegment(Mixed(buf, s, segments[..|segments| - 1], mix), s, last, mix)
  }

  /** The intended passes, like the source's, leave an even number of
      samples to the end of a played part of even length. */
  lemma {:induction false} PassesEven(start: nat, end: nat, pos: nat, times: int, samples: nat, written: nat)
    requires start <= pos <= end && written <= samples
    requires written == samples || start < end || times >= 1
    requires (end - start) % 2 == 0 && (end - pos) % 2 == 0 && (samples - written) % 2 == 0
    ensures (end - Passes(start, end, pos, times, samples, written).pos) % 2 == 0
    decreases samples - written, if start == end then times else 0, if pos == end then 1 else 0
  {
    if written < samples {
      var left := end - pos;
      var t := if times == TIMES_INF then times else times - 1;
      if left < samples - written && t != 0 {
        PassesEven(start, end, start, t, samples, written + left);
      }
    }
  }

  /** The bookkeeping for slot `id` after its mixing (src/audio.c:78-89):
      a stopped slot is skipped; a sound with no plays left is stopped,
      unlinked and put after the tail, which it becomes; any other sound
      keeps its new position and play count. */
  function MixSlot(st: Slots, id: nat, samples: nat): (r: Slots)
    requires SlotsOk(st) && id < |st.sounds| && samples % 2 == 0
    ensures SlotsOk(r) && |r.sounds| == |st.sounds| && r.head == st.head
  {
    var s := st.sounds[id];
    if s.stopped then st
    else
      var v := Voiced(s, samples);
      if v.times == 0 then
        var unlinked := st.sounds[id := s.(stopped := true, next := NO_NEXT)];
        Slots(unlinked[st.tail := unlinked[st.tail].(next := id)], st.head, id)
      else Slots(st.sounds[id := s.(pos := v.pos, times := v.times)], st.head, st.tail)
  }

  /** The slots after the callback has gone through the first n of them. */
  function MixAll(st: Slots, samples: nat, n: nat): (r: Slots)
    requires SlotsOk(st) && n <= |st.sounds| && samples % 2 == 0
    ensures SlotsOk(r) && |r.sounds| == |st.sounds| && r.head == st.head
  {
    if n == 0 then st else MixSlot(MixAll(st, samples, n - 1), n - 1, samples)
  }

  /** Whether the callback stops slot id. */
  predicate Finishes(st: Slots, id: nat, samples: nat)
    requires SlotsOk(st) && id < |st.sounds| && samples % 2 == 0
  {
    !st.sounds[id].stopped && Voiced(st.sounds[id], samples).times == 0
  }

  /** The free list after slot id's bookkeeping. */
  ghost function FreeAfter(st: Slots, id: nat, samples: nat, free: seq<nat>): seq<nat>
    requires SlotsOk(st) && id < |st.sounds| && samples % 2 == 0
  {
    if Finishes(st, id, samples) then free + [id] else free
  }

  /** Slot bookkeeping keeps the free list: a finished sound joins it at
      the tail, and nothing else on it changes. */
  lemma MixSlotValid(st: Slots, id: nat, samples: nat, free: seq<nat>)
    requires SlotsValid(st, free) && id < |st.sounds| && samples % 2 == 0
    ensures SlotsValid(MixSlot(st, id, samples), FreeAfter(st, id, samples, free))
  {
    var s := st.sounds[id];
    if !s.stopped {
      assert id !in free;
      var r := MixSlot(st, id, samples);
      var free' := FreeAfter(st, id, samples, free);
      if Finishes(st, id, samples) {
        forall k | 0 <= k < |free'| - 1
          ensures r.sounds[free'[k]].next == free'[k + 1]
        {
          if k < |free| - 1 {
            assert free[k] != st.tail;
          }
        }
        DistinctAppend(free, [id]);
      }
    }
  }

  ghost function FreeAfterAll(st: Slots, samples: nat, n: nat, free: seq<nat>): seq<nat>
    requires SlotsOk(st) && n <= |st.sounds| && samples % 2 == 0
  {
    if n == 0 then free else FreeAfter(MixAll(st, samples, n - 1), n - 1, samples, FreeAfterAll(st, samples, n - 1, free))
  }

  /** The whole callback keeps the free list, with the finished sounds
      added after the tail in slot order. */
  lemma {:induction false} MixAllValid(st: Slots, samples: nat, n: nat, free: seq<nat>)
    requires SlotsValid(st, free) && n <= |st.sounds| && samples % 2 == 0
    ensures SlotsValid(MixAll(st, samples, n), FreeAfterAll(st, samples, n, free))
    ensures |FreeAfterAll(st, samples, n, free)| >= |free| && FreeAfterAll(st, samples, n, free)[..|free|] == free
  {
    FreeAfterAllPrefix(st, samples, n, free);
    if n > 0 {
      MixAllValid(st, samples, n - 1, free);
      MixSlotValid(MixAll(st, samples, n - 1), n - 1, samples, FreeAfterAll(st, samples, n - 1, free));
    }
  }

  /** The callback only adds to the free list. */
  lemma {:induction false} FreeAfterAllPrefix(st: Slots, samples: nat, n: nat, free: seq<nat>)
    requires SlotsOk(st) && n <= |st.sounds| && samples % 2 == 0
    ensures |FreeAfterAll(st, samples, n, free)| >= |free| && FreeAfterAll(st, samples, n, free)[..|free|] == free
  {
    if n > 0 {
      FreeAfterAllPrefix(st, samples, n - 1, free);
      var f0, f1 := FreeAfterAll(st, samples, n - 1, free), FreeAfterAll(st, samples, n, free);
      assert f1 == f0 || f1 == f0 + [n - 1];
      assert f1[..|free|] == f0[..|free|];
    }
  }

  /** A slot that is stopped keeps its sound; only the link of the slot
      that was the tail can change. A playing slot keeps its samples,
      played part and volumes. */
  lemma MixSlotKeeps(st: Slots, id: nat, samples: nat, i: nat)
    requires SlotsOk(st) && id < |st.sounds| && samples % 2 == 0 && i < |st.sounds|
    ensures var r := MixSlot(st, id, samples).sounds[i];
      var s := st.sounds[i];
      && (s.stopped ==> r == s || (i == st.tail && r == s.(next := r.next)))
      && r.data == s.data && r.start == s.start && r.end == s.end && r.volL == s.volL && r.volR == s.volR
  {
  }

  /** `audioCallback`'s mixing of one segment (src/audio.c:57-60): left
      and right samples in turn, each added into the buffer with `mix`,
      which stands for the float product and its conversion to a 16-bit
      sample. */
  method MixSegment(buffer: array<int>, s: Sound, seg: Segment, mix: (int, int, real) -> int)
    requires seg.count % 2 == 0 && seg.at + seg.count <= buffer.Length
    requires seg.from + seg.count <= |s.data|
    modifies buffer
    ensures forall k :: seg.at <= k < seg.at + seg.count ==>
      buffer[k] == mix(old(buffer[k]), s.data[seg.from + (k - seg.at)], if (k - seg.at) % 2 == 0 then s.volL else s.volR)
    ensures forall k :: 0 <= k < buffer.Length && !(seg.at <= k < seg.at + seg.count) ==> buffer[k] == old(buffer[k])
    ensures buffer[..] == MixedSegment(old(buffer[..]), s, seg, mix)
  {
    var i := 0;
    while i < seg.count
      invariant 0 <= i <= seg.count && i % 2 == 0
      invariant forall k :: seg.at <= k < seg.at + i ==>
        buffer[k] == mix(old(buffer[k]), s.data[seg.from + (k - seg.at)], if (k - seg.at) % 2 == 0 then s.volL else s.volR)
      invariant forall k :: 0 <= k < buffer.Length && !(seg.at <= k < seg.at + i) ==> buffer[k] == old(buffer[k])
    {
      buffer[seg.at + i] := mix(buffer[seg.at + i], s.data[seg.from + i], s.volL);
      buffer[seg.at + i + 1] := mix(buffer[seg.at + i + 1], s.data[seg.from + i + 1], s.volR);
      i := i + 2;
    }
    assert forall k :: 0 <= k < buffer.Length ==> buffer[k] == MixedSegment(old(buffer[..]), s, seg, mix)[k];
  }

  /** The per-sound loop of `audioCallback` (src/audio.c:51-76) as the
      source has it: returns the sound's new position and play count, and
      leaves the buffer with the sound's passes mixed in. */
  method PlayVoice(buffer: array<int>, s: Sound, samples: nat, mix: (int, int, real) -> int) returns (pos: nat, times: int)
    requires Playable(s) && samples % 2 == 0 && samples <= buffer.Length
    modifies buffer
    ensures pos == Voiced(s, samples).pos && times == Voiced(s, samples).times
    ensures buffer[..] == Mixed(old(buffer[..]), s, Voiced(s, samples).segments, mix)
  {
    pos, times := s.pos, s.times;
    var written: nat := 0;
    ghost var goal := Voiced(s, samples);
    ghost var done: seq<Segment> := [];
    ghost var half := samples / 2;
    ghost var halfLeft := (s.end - s.pos) / 2;
    ghost var halfPlayed := (s.end - s.start) / 2;
    while written < samples
      invariant s.end - pos == 2 * halfLeft && samples == 2 * half && s.end - s.start == 2 * halfPlayed
      invariant SegmentsFit(done, buffer.Length, |s.data|)
      invariant Remains(s, samples, goal, done, pos, times, written)
      invariant buffer[..] == Mixed(old(buffer[..]), s, done, mix)
      decreases |goal.segments| - |done|
    {
      var left := s.end - pos;
      var toWrite := if left < samples then left else samples;
      var seg := Segment(0, pos, toWrite);
      MixPass(buffer, s, seg, mix, done, old(buffer[..]));
      ghost var pos0, times0, written0 := pos, times, written;
      if left < samples {
        pos, written := s.start, written + toWrite;
        halfLeft := halfPlayed;
        if times != TIMES_INF {
          times := times - 1;
          if times == 0 {
            written := samples;
          }
        }
      } else {
        pos, written := pos + toWrite, written + toWrite;
        halfLeft := halfLeft - half;
      }
      PlayStep(s, samples, goal, done, pos0, times0, written0, pos, times, written);
      done := done + [seg];
    }
    assert PassesAsWritten(s.start, s.end, pos, times, samples, written).segments == [];
    assert done + [] == done;
  }

  /** The outcome of the loop is the passes made so far followed by the
      outcome from the current state. */
  ghost predicate Remains(s: Sound, samples: nat, goal: Voice, done: seq<Segment>, pos: nat, times: int, written: nat)
  {
    && s.start <= pos <= s.end && (written >= samples || s.start < s.end || times >= 1)
    && var v := PassesAsWritten(s.start, s.end, pos, times, samples, written);
       goal == Voice(v.pos, v.times, done + v.segments)
  }

  /** One turn of `PlayVoice`'s loop keeps `Remains`, with the pass it
      mixed added to the passes made. */
  lemma PlayStep(s: Sound, samples: nat, goal: Voice, done: seq<Segment>,
                 pos0: nat, times0: int, written0: nat, pos: nat, times: int, written: nat)
    requires written0 < samples && Remains(s, samples, goal, done, pos0, times0, written0)
    requires var left := s.end - pos0;
      var toWrite := if left < samples then left else samples;
      var t := if times0 == TIMES_INF then times0 else times0 - 1;
      if left < samples then
        pos == s.start && times == t && written == (if t == 0 then samples else written0 + toWrite)
      else pos == pos0 + toWrite && times == times0 && written == written0 + toWrite
    ensures Remains(s, samples, goal, done + [Segment(0, pos0, Min(s.end - pos0, samples))], pos, times, written)
  {
    PassesAsWrittenStep(s.start, s.end, pos0, times0, samples, written0);
    var seg := Segment(0, pos0, Min(s.end - pos0, samples));
    var v := PassesAsWritten(s.start, s.end, pos, times, samples, written);
    assert done + ([seg] + v.segments) == (done + [seg]) + v.segments;
    assert done + [seg] == (done + [seg]) + [];
  }

  /** One pass of `PlayVoice`: the buffer after the passes so far takes
      one more. */
  method MixPass(buffer: array<int>, s: Sound, seg: Segment, mix: (int, int, real) -> int,
                 ghost done: seq<Segment>, ghost start: seq<int>)
    requires seg.count % 2 == 0 && seg.at + seg.count <= buffer.Length && seg.from + seg.count <= |s.data|
    requires |start| == buffer.Length && SegmentsFit(done, buffer.Length, |s.data|)
    requires buffer[..] == Mixed(start, s, done, mix)
    modifies buffer
    ensures SegmentsFit(done + [seg], buffer.Length, |s.data|)
    ensures buffer[..] == Mixed(start, s, done + [seg], mix)
  {
    MixSegment(buffer, s, seg, mix);
    MixedSnoc(start, s, done, seg, mix);
  }

  /** Mixing one more pass mixes it into the buffer the earlier passes left. */
  lemma MixedSnoc(buf: seq<int>, s: Sound, done: seq<Segment>, seg: Segment, mix: (int, int, real) -> int)
    requires SegmentsFit(done, |buf|, |s.data|)
    requires seg.at + seg.count <= |buf| && seg.from + seg.count <= |s.data|
    ensures SegmentsFit(done + [seg], |buf|, |s.data|)
    ensures Mixed(buf, s, done + [seg], mix) == MixedSegment(Mixed(buf, s, done, mix), s, seg, mix)
  {
    assert (done + [seg])[..|done|] == done;
  }

  lemma EvenDiff(a: int, b: int)
    requires a % 2 == 0 && b % 2 == 0
    ensures (a - b) % 2 == 0
  {
  }

  /** The clearing loop of `audioCallback` (src/audio.c:38-39). */
  method Silence(buffer: array<int>, samples: nat)
    requires samples <= buffer.Length
    modifies buffer
    ensures forall k :: 0 <= k < samples ==> buffer[k] == 0
    ensures forall k :: samples <= k < buffer.Length ==> buffer[k] == old(buffer[k])
  {
    for k := 0 to samples
      invariant forall j :: 0 <= j < k ==> buffer[j] == 0
      invariant forall j :: samples <= j < buffer.Length ==> buffer[j] == old(buffer[j])
    {
      buffer[k] := 0;
    }
  }

  /** The callback's sample count, twice its frame count as a 32-bit
      unsigned, is even. */
  lemma StereoSamplesEven(size: nat)
    requires size < TWO_32
    ensures UInt32(2 * size) % 2 == 0
  {
    if 2 * size < TWO_32 {
      UInt32OfSmall(2 * size);
    } else {
      assert UInt32(2 * size) == 2 * size - TWO_32;
    }
  }

  /** The buffer after one slot's turn in the callback: a stopped slot
      leaves it as it is, a playing one mixes in its passes. */
  function MixVoice(buf: seq<int>, s: Sound, samples: nat, mix: (int, int, real) -> int): (r: seq<int>)
    requires (s.stopped || Playable(s)) && samples % 2 == 0 && samples <= |buf|
    ensures |r| == |buf|
  {
    if s.stopped then buf else Mixed(buf, s, Voiced(s, samples).segments, mix)
  }

  /** The buffer after the callback has gone through the first n slots,
      each mixed as it stands when its turn comes. */
  function CallbackBuffer(st: Slots, buf: seq<int>, samples: nat, n: nat, mix: (int, int, real) -> int): (r: seq<int>)
    requires SlotsOk(st) && n <= |st.sounds| && samples % 2 == 0 && samples <= |buf|
    ensures |r| == |buf|
  {
    if n == 0 then buf
    else MixVoice(CallbackBuffer(st, buf, samples, n - 1, mix), MixAll(st, samples, n - 1).sounds[n - 1], samples, mix)
  }

  /** With every slot stopped, the callback changes neither the slots nor
      the buffer. */
  lemma {:induction false} AllStoppedSilent(st: Slots, buf: seq<int>, samples: nat, n: nat, mix: (int, int, real) -> int)
    requires SlotsOk(st) && n <= |st.sounds| && samples % 2 == 0 && samples <= |buf|
    requires forall i :: 0 <= i < |st.sounds| ==> st.sounds[i].stopped
    ensures MixAll(st, samples, n) == st && CallbackBuffer(st, buf, samples, n, mix) == buf
    decreases n
  {
    if n > 0 {
      AllStoppedSilent(st, buf, samples, n - 1, mix);
    }
  }

  /** Mixing passes that lie in the first `size` samples leaves the rest of
      the buffer as it was. */
  lemma {:induction false} MixedOutside(buf: seq<int>, s: Sound, segments: seq<Segment>, mix: (int, int, real) -> int, size: nat)
    requires size <= |buf| && SegmentsFit(segments, size, |s.data|)
    ensures forall k :: size <= k < |buf| ==> Mixed(buf, s, segments, mix)[k] == buf[k]
    decreases |segments|
  {
    if segments != [] {
      MixedOutside(buf, s, segments[..|segments| - 1], mix, size);
    }
  }

  /** `size` samples of silence at the front of the buffer (src/audio.c:38-39). */
  function Silenced(buf: seq<int>, size: nat): (r: seq<int>)
    requires size <= |buf|
    ensures |r| == |buf| && r[size..] == buf[size..]
    ensures forall k :: 0 <= k < size ==> r[k] == 0
  {
    seq(size, _ => 0) + buf[size..]
  }

  /** The slot array and the two ends of its free list. */
  class Mixer {
    /** `sounds[MAX_SOUND_COUNT]`. */
    const sounds: array<Sound>
    /** `availableHead` and `availableTail`. */
    var head: int
    var tail: int
    /** The free slots, from head to tail. */
    ghost var free: seq<nat>

    function State(): Slots
      reads this, sounds
    {
      Slots(sounds[..], head, tail)
    }

    ghost predicate Valid()
      reads this, sounds
    {
      SlotsValid(State(), free)
    }

    /** The zero-filled static array, then `emptySounds` as `initAudio`
        calls it. */
    constructor(capacity: nat)
      requires capacity >= 1
      ensures Valid() && sounds.Length == capacity && head == 0 && tail == capacity - 1
      ensures free == seq(capacity, i => i)
    {
      sounds := new Sound[capacity](_ => Sound([], 0, 0, 0, 0.0, 0.0, 0, false, 0));
      head, tail := 0, 0;
      free := [0];
      new;
      EmptySounds();
    }

    /** `emptySounds` (src/audio.c:94-105): every slot stopped and linked
        to the next one, the last ending the list; the list runs over all
        slots from the first to the last. */
    method EmptySounds()
      requires sounds.Length >= 1
      modifies this, sounds
      ensures head == 0 && tail == sounds.Length - 1
      ensures forall i :: 0 <= i < sounds.Length ==>
        sounds[i] == old(sounds[i]).(next := if i == sounds.Length - 1 then NO_NEXT else i + 1, stopped := true)
      ensures Valid() && free == seq(sounds.Length, i => i)
    {
      head := 0;
      tail := sounds.Length - 1;
      for i := 0 to sounds.Length
        invariant head == 0 && tail == sounds.Length - 1
        invariant forall j :: 0 <= j < i ==> sounds[j] == old(sounds[j]).(next := j + 1, stopped := true)
        invariant forall j :: i <= j < sounds.Length ==> sounds[j] == old(sounds[j])
      {
        sounds[i] := sounds[i].(next := i + 1, stopped := true);
      }
      var last := sounds.Length - 1;
      sounds[last] := sounds[last].(next := NO_NEXT);
      free := seq(sounds.Length, i => i);
      assert forall k :: 0 <= k < |free| ==> free[k] == k;
      assert forall i :: 0 <= i < last ==> sounds[i] == old(sounds[i]).(next := i + 1, stopped := true);
      assert sounds[last] == old(sounds[last]).(next := NO_NEXT, stopped := true);
    }

    /** `playSound` (src/audio.c:20-31): when the head slot is not the last
        free one, the sound goes into it and the head moves on; otherwise
        nothing changes. */
    method PlaySound(sound: Sound) returns (played: bool)
      requires Valid() && (sound.stopped || Playable(sound))
      modifies this, sounds
      ensures Valid() && tail == old(tail)
      ensures played <==> old(sounds[head].next) != NO_NEXT
      ensures played ==> sounds[..] == old(sounds[..])[old(head) := sound] && head == old(sounds[head].next)
      ensures played ==> free == old(free)[1..]
      ensures !played ==> sounds[..] == old(sounds[..]) && head == old(head) && free == old(free)
    {
      var next := sounds[head].next;
      if next == NO_NEXT {
        return false;
      }
      assert |free| > 1;
      sounds[head] := sound;
      head := next;
      free := free[1..];
      played := true;
    }

    /** The bookkeeping of one slot in `audioCallback` (src/audio.c:44-89):
        the slot's sound is mixed into the buffer and its state updated. */
    method MixSlotAt(buffer: array<int>, id: nat, samples: nat, mix: (int, int, real) -> int)
      requires Valid() && id < sounds.Length && samples % 2 == 0 && samples <= buffer.Length
      modifies this, sounds, buffer
      ensures State() == MixSlot(old(State()), id, samples)
      ensures free == FreeAfter(old(State()), id, samples, old(free)) && Valid()
      ensures buffer[..] == MixVoice(old(buffer[..]), old(sounds[id]), samples, mix)
      ensures forall k :: samples <= k < buffer.Length ==> buffer[k] == old(buffer[k])
    {
      ghost var st := State();
      MixSlotValid(st, id, samples, free);
      var sound := sounds[id];
      if sound.stopped {
        return;
      }
      ghost var before := buffer[..];
      var pos, times := PlayVoice(buffer, sound, samples, mix);
      MixedOutside(before, sound, Voiced(sound, samples).segments, mix, samples);
      if times == 0 {
        sounds[id] := sounds[id].(stopped := true, next := NO_NEXT);
        sounds[tail] := sounds[tail].(next := id);
        tail := id;
        free := free + [id];
      } else {
        sounds[id] := sounds[id].(pos := pos, times := times);
      }
    }

    /** `audioCallback` (src/audio.c:34-91): `size` stereo frames, that is
        2 * size samples as an `unsigned`, are cleared and then every
        playing sound is mixed in, slot after slot. With no sound playing
        the buffer is silent. */
    method Callback(buffer: array<int>, size: nat, mix: (int, int, real) -> int)
      requires Valid() && size < TWO_32 && UInt32(2 * size) <= buffer.Length
      modifies this, sounds, buffer
      ensures UInt32(2 * size) % 2 == 0
      ensures State() == MixAll(old(State()), UInt32(2 * size), sounds.Length)
      ensures free == FreeAfterAll(old(State()), UInt32(2 * size), sounds.Length, old(free)) && Valid()
      ensures buffer[..] == CallbackBuffer(old(State()), Silenced(old(buffer[..]), UInt32(2 * size)),
                                           UInt32(2 * size), sounds.Length, mix)
      ensures forall k :: UInt32(2 * size) <= k < buffer.Length ==> buffer[k] == old(buffer[k])
      ensures (forall i :: 0 <= i < sounds.Length ==> old(sounds[i].stopped)) ==>
        forall k :: 0 <= k < UInt32(2 * size) ==> buffer[k] == 0
    {
      var samples := UInt32(2 * size);
      StereoSamplesEven(size);
      Silence(buffer, samples);
      assert buffer[..] == Silenced(old(buffer[..]), samples);
      MixSlots(buffer, samples, mix);
    }

    /** The loop of `audioCallback` over all slots (src/audio.c:42-90). */
    method MixSlots(buffer: array<int>, samples: nat, mix: (int, int, real) -> int)
      requires Valid() && samples % 2 == 0 && samples <= buffer.Length
      modifies this, sounds, buffer
      ensures State() == MixAll(old(State()), samples, sounds.Length)
      ensures free == FreeAfterAll(old(State()), samples, sounds.Length, old(free)) && Valid()
      ensures buffer[..] == CallbackBuffer(old(State()), old(buffer[..]), samples, sounds.Length, mix)
      ensures forall k :: samples <= k < buffer.Length ==> buffer[k] == old(buffer[k])
      ensures (forall i :: 0 <= i < sounds.Length ==> old(sounds[i].stopped)) ==> buffer[..] == old(buffer[..])
    {
      ghost var st := State();
      ghost var free0 := free;
      ghost var buf0 := buffer[..];
      for id := 0 to sounds.Length
        invariant State() == MixAll(st, samples, id)
        invariant free == FreeAfterAll(st, samples, id, free0) && Valid()
        invariant buffer[..] == CallbackBuffer(st, buf0, samples, id, mix)
        invariant forall j :: samples <= j < buffer.Length ==> buffer[j] == old(buffer[j])
      {
        MixSlotAt(buffer, id, samples, mix);
      }
      if forall i :: 0 <= i < |st.sounds| ==> st.sounds[i].stopped {
        AllStoppedSilent(st, buf0, samples, sounds.Length, mix);
      }
    }
  }
}
