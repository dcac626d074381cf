/** `loadWAV` (src/audio.c:126-232): reads a RIFF/WAVE file's header at
    fixed offsets, scans from byte 36 for the `data` tag with a small state
    machine, then reads the 32-bit data size and that many bytes of
    samples. The file is a sequence of bytes; every multi-byte field is
    little-endian. */
module Wav {
  import opened Common

  type Byte = b: int | 0 <= b < 256

  /** The tags the loader compares with, as bytes. */
  const RIFF: seq<Byte> := [82, 73, 70, 70]
  const WAVE: seq<Byte> := [87, 65, 86, 69]
  const DATA: seq<Byte> := [100, 97, 116, 97]
  /** The `fmt ` chunk tag, which the loader skips over. */
  const FMT: seq<Byte> := [102, 109, 116, 32]

  /** Where the scan for the `data` tag starts: the header's reads and
      seeks add up to 36 bytes. */
  const SCAN_FROM: nat := 36

  function Pow256(n: nat): (r: nat)
    ensures r >= 1
  {
    if n == 0 then 1 else 256 * Pow256(n - 1)
  }

  /** The little-endian value of some bytes. */
  function Value(s: seq<Byte>): (r: nat)
    ensures r < Pow256(|s|)
  {
    if s == [] then 0 else s[0] + 256 * Value(s[1..])
  }

  /** x in n little-endian bytes, dropping what does not fit. */
  function Bytes(x: nat, n: nat): (r: seq<Byte>)
    ensures |r| == n
  {
    if n == 0 then [] else [x % 256] + Bytes(x / 256, n - 1)
  }

  /** Writing a value in enough bytes and reading it back gives the value. */
  lemma {:induction false} ValueOfBytes(x: nat, n: nat)
    requires x < Pow256(n)
    ensures Value(Bytes(x, n)) == x
  {
    if n > 0 {
      assert x / 256 < Pow256(n - 1);
      ValueOfBytes(x / 256, n - 1);
      assert Bytes(x, n)[1..] == Bytes(x / 256, n - 1);
    }
  }

  /** A `data` tag starts at byte k. */
  predicate TagAt(file: seq<Byte>, k: nat)
  {
    k + 4 <= |file| && file[k..k + 4] == DATA
  }

  /** The first `data` tag at or after `from`: the position just after
      it. */
  function Find(file: seq<Byte>, from: nat): (r: Option<nat>)
    ensures r.Some? ==> from + 4 <= r.value && TagAt(file, r.value - 4)
    ensures r.Some? ==> forall k :: from <= k < r.value - 4 ==> !TagAt(file, k)
    ensures r.None? <==> forall k :: from <= k ==> !TagAt(file, k)
    decreases |file| - from
  {
    if from + 4 > |file| then None
    else if TagAt(file, from) then Some(from + 4)
    else Find(file, from + 1)
  }

  /** How much of the `data` tag the bytes from `from` to `i` end with:
      the states ' ', 'd', 'a' and 't' of the scanner. No two of the tag's
      first three prefixes end in the same byte, so at most one holds. */
  function Matched(file: seq<Byte>, from: nat, i: nat): (r: nat)
    requires i <= |file|
    ensures r <= 3 && (from + r <= i || (r == 0 && i < from))
  {
    if i >= from + 3 && file[i - 3] == DATA[0] && file[i - 2] == DATA[1] && file[i - 1] == DATA[2] then 3
    else if i >= from + 2 && file[i - 2] == DATA[0] && file[i - 1] == DATA[1] then 2
    else if i >= from + 1 && file[i - 1] == DATA[0] then 1
    else 0
  }

  /** The scanner's state for a match of length n. */
  function State(n: nat): char
  {
    if n == 0 then ' ' else if n == 1 then 'd' else if n == 2 then 'a' else 't'
  }

  /** No `data` tag lies wholly between `from` and `i`. */
  predicate NoTag(file: seq<Byte>, from: nat, i: nat)
  {
    forall k :: from <= k && k + 4 <= i ==> !TagAt(file, k)
  }

  /** The scanning loop of `loadWAV` (src/audio.c:170-199): reads one byte
      at a time from `from`; a read past the end is `safe_read`'s exit,
      here `None`. Otherwise the position after the first `data` tag. */
  method Scan(file: seq<Byte>, from: nat) returns (r: Option<nat>)
    ensures r == Find(file, from)
  {
    var i := from;
    var state := ' ';
    while state != 'f'
      invariant from <= i && (i <= |file| || i == from)
      invariant state != 'f' ==> NoTag(file, from, i)
      invariant state != 'f' && i <= |file| ==> state == State(Matched(file, from, i))
      invariant state == 'f' ==> from + 4 <= i && TagAt(file, i - 4) && NoTag(file, from, i - 1)
      decreases |file| - i, if state == 'f' then 0 else 1
    {
      if i >= |file| {
        return None;
      }
      ScanStep(file, from, i);
      state := Next(state, file[i]);
      i := i + 1;
    }
    return Some(i);
  }

  /** The `switch` on each byte read (src/audio.c:174-198): a `d` always
      starts a new match; an `a` after `dat` completes the tag, after `d`
      extends the match; a `t` after `da` extends it; anything else
      resets it. */
  function Next(state: char, c: Byte): (next: char)
    ensures next in {' ', 'd', 'a', 't', 'f'}
    ensures next != ' ' ==> c in {'d' as int, 'a' as int, 't' as int}
  {
    if c == 'd' as int then 'd'
    else if c == 'a' as int && state == 't' then 'f'
    else if c == 'a' as int && state == 'd' then 'a'
    else if c == 't' as int && state == 'a' then 't'
    else ' '
  }

  /** One byte of the scan: from the state of the match so far, the state
      machine moves to the state of the match one byte on, or finishes
      exactly when the byte completes a tag. */
  lemma ScanStep(file: seq<Byte>, from: nat, i: nat)
    requires from <= i < |file|
    ensures Next(State(Matched(file, from, i)), file[i])
      == if i >= from + 3 && TagAt(file, i - 3) then 'f' else State(Matched(file, from, i + 1))
  {
    if i >= from + 3 {
      assert file[i - 3..i + 1] == [file[i - 3], file[i - 2], file[i - 1], file[i]];
    }
  }

  /** The header fields the loader keeps: `typeOfFormat`, `channelCount`,
      `sampleRate`, `frameSize` and `bitsPerSample`. */
  datatype Format = Format(format: nat, channels: nat, sampleRate: nat, frameSize: nat, bitsPerSample: nat)

  /** The checks that end the program with `exit(666)`: the `RIFF` tag, the
      `WAVE` tag, and the end of the file reached before a `data` tag. */
  datatype Failure = NotRiff | NotWave | NoData

  /** What `loadWAV` does with a file: returns the samples it read (`data`,
      which is `size` bytes long once allocated, of which the file fills
      the first `|data|`) and `*length`; or exits; or runs into behaviour the
      file does not determine: comparing bytes that no read filled, a data
      size that no read filled, or a division by a sample width of zero. */
  datatype Outcome = Loaded(format: Format, data: seq<Byte>, size: nat, length: nat)
                   | Exited(reason: Failure)
                   | Indeterminate

  /** How many bytes `fread(buffer, 1, n, file)` gets at offset `at`. */
  function Got(file: seq<Byte>, at: nat, n: nat): (r: nat)
    ensures r <= n && (at + n <= |file| ==> r == n)
    ensures r < n ==> at + r == |file| || (at >= |file| && r == 0)
  {
    if at >= |file| then 0 else if at + n <= |file| then n else |file| - at
  }

  /** `fread` into a buffer: the bytes it gets replace the buffer's first
      bytes, and the rest of the buffer keeps what it held. */
  function ReadInto(buffer: seq<Byte>, file: seq<Byte>, at: nat): (r: seq<Byte>)
    ensures |r| == |buffer|
    ensures at + |buffer| <= |file| ==> r == file[at..at + |buffer|]
    ensures at >= |file| ==> r == buffer
  {
    if at >= |file| then buffer
    else
      var got := Got(file, at, |buffer|);
      file[at..at + got] + buffer[got..]
  }

  /** `*length`: how many samples of the given width in bytes fit in the
      data, as unsigned division. */
  function Frames(size: nat, width: nat): (r: nat)
    requires width > 0
    ensures r * width <= size < (r + 1) * width
  {
    size / width
  }

  /** The header fields at their offsets. */
  function HeaderOf(file: seq<Byte>): Format
    requires |file| >= 36
  {
    Format(Value(file[20..22]), Value(file[22..24]), Value(file[24..28]), Value(file[32..34]), Value(file[34..36]))
  }

  /** `loadWAV` on a file's bytes: the tag checks, then the `data` chunk. */
  function WavSpec(file: seq<Byte>): (r: Outcome)
    ensures r.Loaded? ==> |file| >= SCAN_FROM + 8 && file[..4] == RIFF && file[8..12] == WAVE
    ensures r.Loaded? ==> r.format == HeaderOf(file) && r.format.bitsPerSample >= 8
    ensures r.Loaded? ==> r.size < TWO_32 && |r.data| <= r.size && r.length * (r.format.bitsPerSample / 8) <= r.size
    ensures r == Exited(NotRiff) <==> !(|file| >= 4 && file[..4] == RIFF) && !(|file| < 4 && file == RIFF[..|file|])
  {
    match Tags(file)
    case Some(stop) => stop
    case None => Chunk(file)
  }

  /** The `RIFF` and `WAVE` checks: how they end the load, if they do. The
      first read fills an uninitialised buffer, so a file that is a proper
      prefix of `RIFF` leaves the check to whatever the buffer held; the
      second read keeps `RIFF` in the bytes it does not get. */
  function Tags(file: seq<Byte>): (r: Option<Outcome>)
    ensures r.None? ==> |file| >= 12 && file[..4] == RIFF && file[8..12] == WAVE
    ensures r.Some? ==> r.value == Indeterminate || r.value.Exited?
  {
    if |file| < 4 && file == RIFF[..|file|] then Some(Indeterminate)
    else if !(|file| >= 4 && file[..4] == RIFF) then Some(Exited(NotRiff))
    else
      var buffer := ReadInto(RIFF, file, 8);
      assert |file| < 12 ==> buffer[3] == RIFF[3];
      if buffer != WAVE then Some(Exited(NotWave)) else None
  }

  /** The `data` chunk, found by the scan from byte 36: its 32-bit size,
      and the bytes that follow it, as many as the size asks for and the
      file holds. A file shorter than 36 bytes leaves the scan at or past
      its end. */
  function Chunk(file: seq<Byte>): (r: Outcome)
    ensures r.Loaded? ==> |file| >= SCAN_FROM + 8 && r.format == HeaderOf(file) && r.format.bitsPerSample >= 8
    ensures r.Loaded? ==> r.size < TWO_32 && |r.data| <= r.size && r.length * (r.format.bitsPerSample / 8) <= r.size
    ensures r.Exited? ==> r.reason == NoData
  {
    match Find(file, SCAN_FROM)
    case None => Exited(NoData)
    case Some(p) =>
      if p + 4 > |file| then Indeterminate
      else
        var size := Value(file[p..p + 4]);
        var format := HeaderOf(file);
        if format.bitsPerSample / 8 == 0 then Indeterminate
        else
          var data := file[p + 4..p + 4 + Got(file, p + 4, size)];
          Loaded(format, data, size, Frames(size, format.bitsPerSample / 8))
  }

  /** A header field of n bytes read at `at`. A field the file does not
      fill stands for whatever the variable held; such a file always ends
      in the scan's exit, so the value is never used. */
  function Field(file: seq<Byte>, at: nat, n: nat): nat
  {
    if at + n <= |file| then Value(file[at..at + n]) else 0
  }

  /** `loadWAV` step by step, with the file position `at`: each read moves
      it by what it got, each `fseek(file, 4, SEEK_CUR)` by four. */
  method LoadWav(file: seq<Byte>) returns (r: Outcome)
    ensures r == WavSpec(file)
  {
    var stop := CheckTags(file);
    if stop.Some? {
      return stop.value;
    }
    r := ReadChunk(file);
  }

  /** The tag checks of `loadWAV` (src/audio.c:140-153). */
  method CheckTags(file: seq<Byte>) returns (stop: Option<Outcome>)
    ensures stop == Tags(file)
  {
    var at := 0;
    var got := Got(file, at, 4);
    if got < 4 && file[..got] == RIFF[..got] {
      return Some(Indeterminate);
    }
    if file[..got] != RIFF {
      return Some(Exited(NotRiff));
    }
    var buffer := RIFF;
    at := at + got + 4;
    buffer := ReadInto(buffer, file, at);
    if buffer != WAVE {
      return Some(Exited(NotWave));
    }
    return None;
  }

  /** The rest of `loadWAV` (src/audio.c:155-227), once the tags matched. */
  method ReadChunk(file: seq<Byte>) returns (r: Outcome)
    requires |file| >= 12
    ensures r == Chunk(file)
  {
    var format, at := ReadFormat(file);
    if |file| < SCAN_FROM {
      assert Find(file, at) == None == Find(file, SCAN_FROM);
    }
    var found := Scan(file, at);
    if found.None? {
      return Exited(NoData);
    }
    var p := found.value;
    if p + 4 > |file| {
      return Indeterminate;
    }
    var size := Value(file[p..p + 4]);
    var data := file[p + 4..p + 4 + Got(file, p + 4, size)];
    if format.bitsPerSample / 8 == 0 {
      return Indeterminate;
    }
    r := Loaded(format, data, size, Frames(size, format.bitsPerSample / 8));
  }

  /** The header reads of `loadWAV` after the `WAVE` tag (src/audio.c:157-166),
      from byte 16: the `fmt ` chunk's length (only printed), the format,
      the channel count, the sample rate, a skipped byte rate, the frame
      size and the sample width. The scan starts where they stop: at byte
      36, or past the end of a shorter file. */
  method ReadFormat(file: seq<Byte>) returns (f: Format, at: nat)
    requires |file| >= 12
    ensures |file| >= SCAN_FROM ==> at == SCAN_FROM && f == HeaderOf(file)
    ensures |file| < SCAN_FROM ==> at >= |file|
  {
    at := 16;
    at := at + Got(file, at, 4);
    var format := Field(file, at, 2);
    at := at + Got(file, at, 2);
    var channels := Field(file, at, 2);
    at := at + Got(file, at, 2);
    var sampleRate := Field(file, at, 4);
    at := at + Got(file, at, 4) + 4;
    var frameSize := Field(file, at, 2);
    at := at + Got(file, at, 2);
    var bitsPerSample := Field(file, at, 2);
    at := at + Got(file, at, 2);
    f := Format(format, channels, sampleRate, frameSize, bitsPerSample);
  }

  /** A file of 4 to 11 bytes that starts with `RIFF` always fails the
      `WAVE` check: the second read leaves at least the buffer's last byte
      from `RIFF`, and it differs from the last byte of `WAVE`. */
  lemma ShortFileNotWave(file: seq<Byte>)
    requires 4 <= |file| < 12 && file[..4] == RIFF
    ensures WavSpec(file) == Exited(NotWave)
  {
    assert ReadInto(RIFF, file, 8)[3] == RIFF[3];
  }

  /** A canonical file: the RIFF header, a 16-byte `fmt ` chunk holding the
      format and a byte rate of sample rate times frame size, then the
      `data` chunk. */
  function MakeWav(f: Format, samples: seq<Byte>): (file: seq<Byte>)
    ensures |file| == SCAN_FROM + 8 + |samples|
  {
    RiffPart(|samples|) + (FmtPart(f) + (RatePart(f) + (DataPart(|samples|) + samples)))
  }

  function RiffPart(n: nat): (r: seq<Byte>)
    ensures |r| == 12 && r[..4] == RIFF && r[8..] == WAVE
  {
    RIFF + Bytes(SCAN_FROM + n, 4) + WAVE
  }

  function FmtPart(f: Format): (r: seq<Byte>)
    ensures |r| == 16 && r[8..10] == Bytes(f.format, 2) && r[10..12] == Bytes(f.channels, 2)
    ensures r[12..] == Bytes(f.sampleRate, 4)
  {
    FMT + Bytes(16, 4) + Bytes(f.format, 2) + Bytes(f.channels, 2) + Bytes(f.sampleRate, 4)
  }

  function RatePart(f: Format): (r: seq<Byte>)
    ensures |r| == 8 && r[4..6] == Bytes(f.frameSize, 2) && r[6..] == Bytes(f.bitsPerSample, 2)
  {
    Bytes(f.sampleRate * f.frameSize, 4) + Bytes(f.frameSize, 2) + Bytes(f.bitsPerSample, 2)
  }

  function DataPart(n: nat): (r: seq<Byte>)
    ensures |r| == 8 && r[..4] == DATA && r[4..8] == Bytes(n, 4)
  {
    DATA + Bytes(n, 4)
  }

  /** The header fits its fields. */
  predicate Fits(f: Format)
  {
    f.format < 0x1_0000 && f.channels < 0x1_0000 && f.sampleRate < TWO_32
    && f.frameSize < 0x1_0000 && f.bitsPerSample < 0x1_0000
  }

  /** Where the canonical file puts each field. */
  lemma MakeWavLayout(f: Format, samples: seq<Byte>)
    ensures var file := MakeWav(f, samples);
      && file[..4] == RIFF && file[8..12] == WAVE && file[36..40] == DATA
      && file[20..22] == Bytes(f.format, 2) && file[22..24] == Bytes(f.channels, 2)
      && file[24..28] == Bytes(f.sampleRate, 4) && file[32..34] == Bytes(f.frameSize, 2)
      && file[34..36] == Bytes(f.bitsPerSample, 2) && file[40..44] == Bytes(|samples|, 4)
      && file[44..44 + |samples|] == samples
  {
    LayoutRiff(f, samples);
    LayoutFmt(f, samples);
    LayoutRate(f, samples);
    LayoutDataTag(f, samples);
    LayoutDataSize(f, samples);
    LayoutSamples(f, samples);
  }

  lemma LayoutRiff(f: Format, samples: seq<Byte>)
    ensures MakeWav(f, samples)[..4] == RIFF && MakeWav(f, samples)[8..12] == WAVE
  {
    var a := RiffPart(|samples|);
    var t := FmtPart(f) + (RatePart(f) + (DataPart(|samples|) + samples));
    assert MakeWav(f, samples) == a + t;
    Within(a, t, 0, 4);
    Within(a, t, 8, 12);
    assert a[..4] == a[0..4];
  }

  lemma LayoutFmt(f: Format, samples: seq<Byte>)
    ensures MakeWav(f, samples)[20..22] == Bytes(f.format, 2)
    ensures MakeWav(f, samples)[22..24] == Bytes(f.channels, 2)
    ensures MakeWav(f, samples)[24..28] == Bytes(f.sampleRate, 4)
  {
    var a, b := RiffPart(|samples|), FmtPart(f);
    var u := RatePart(f) + (DataPart(|samples|) + samples);
    assert MakeWav(f, samples) == a + (b + u);
    Beyond(a, b + u, 8, 10);
    Within(b, u, 8, 10);
    Beyond(a, b + u, 10, 12);
    Within(b, u, 10, 12);
    Beyond(a, b + u, 12, 16);
    Within(b, u, 12, 16);
  }

  lemma LayoutRate(f: Format, samples: seq<Byte>)
    ensures MakeWav(f, samples)[32..34] == Bytes(f.frameSize, 2)
    ensures MakeWav(f, samples)[34..36] == Bytes(f.bitsPerSample, 2)
  {
    var a, b, c := RiffPart(|samples|), FmtPart(f), RatePart(f);
    var v := DataPart(|samples|) + samples;
    assert MakeWav(f, samples) == a + (b + (c + v));
    Beyond(a, b + (c + v), 20, 22);
    Beyond(b, c + v, 4, 6);
    Within(c, v, 4, 6);
    Beyond(a, b + (c + v), 22, 24);
    Beyond(b, c + v, 6, 8);
    Within(c, v, 6, 8);
  }

  lemma LayoutDataTag(f: Format, samples: seq<Byte>)
    ensures MakeWav(f, samples)[36..40] == DATA
  {
    var a, b, c, d := RiffPart(|samples|), FmtPart(f), RatePart(f), DataPart(|samples|);
    var file := MakeWav(f, samples);
    assert file == a + (b + (c + (d + samples)));
    DataAt(a, b, c, d, samples, 0, 4);
    assert file[36..40] == d[0..4];
    assert d[0..4] == d[..4];
  }

  lemma LayoutDataSize(f: Format, samples: seq<Byte>)
    ensures MakeWav(f, samples)[40..44] == Bytes(|samples|, 4)
  {
    var a, b, c, d := RiffPart(|samples|), FmtPart(f), RatePart(f), DataPart(|samples|);
    var file := MakeWav(f, samples);
    assert file == a + (b + (c + (d + samples)));
    DataAt(a, b, c, d, samples, 4, 8);
    assert file[40..44] == d[4..8];
  }

  lemma LayoutSamples(f: Format, samples: seq<Byte>)
    ensures MakeWav(f, samples)[44..44 + |samples|] == samples
  {
    var a, b, c, d := RiffPart(|samples|), FmtPart(f), RatePart(f), DataPart(|samples|);
    var u := c + (d + samples);
    assert MakeWav(f, samples) == a + (b + u);
    var n := |samples|;
    Beyond(a, b + u, 32, 32 + n);
    Beyond(b, u, 16, 16 + n);
    Beyond(c, d + samples, 8, 8 + n);
    Tail(d, samples);
  }

  /** Bytes i to j of the `data` chunk header, from the start of the file. */
  lemma DataAt(a: seq<Byte>, b: seq<Byte>, c: seq<Byte>, d: seq<Byte>, samples: seq<Byte>, i: nat, j: nat)
    requires |a| == 12 && |b| == 16 && |c| == 8 && i <= j <= |d|
    ensures (a + (b + (c + (d + samples))))[36 + i..36 + j] == d[i..j]
  {
    Beyond(a, b + (c + (d + samples)), 24 + i, 24 + j);
    Beyond(b, c + (d + samples), 8 + i, 8 + j);
    Beyond(c, d + samples, i, j);
    Within(d, samples, i, j);
  }

  lemma Tail(x: seq<Byte>, y: seq<Byte>)
    ensures (x + y)[|x|..|x| + |y|] == y
  {
  }

  lemma Beyond(x: seq<Byte>, y: seq<Byte>, i: nat, j: nat)
    requires i <= j <= |y|
    ensures (x + y)[|x| + i..|x| + j] == y[i..j]
  {
  }

  lemma Within(x: seq<Byte>, y: seq<Byte>, i: nat, j: nat)
    requires i <= j <= |x|
    ensures (x + y)[i..j] == x[i..j]
  {
  }

  /** Loading a canonical file gives back its format and samples, all of
      them read, and the number of samples of the format's width. */
  lemma LoadMakeWav(f: Format, samples: seq<Byte>)
    requires Fits(f) && f.bitsPerSample >= 8 && |samples| < TWO_32
    ensures WavSpec(MakeWav(f, samples)) == Loaded(f, samples, |samples|, Frames(|samples|, f.bitsPerSample / 8))
  {
    var file := MakeWav(f, samples);
    assert Pow256(2) == 0x1_0000 && Pow256(4) == TWO_32;
    MakeWavLayout(f, samples);
    assert TagAt(file, SCAN_FROM);
    ValueOfBytes(f.format, 2);
    ValueOfBytes(f.channels, 2);
    ValueOfBytes(f.sampleRate, 4);
    ValueOfBytes(f.frameSize, 2);
    ValueOfBytes(f.bitsPerSample, 2);
    ValueOfBytes(|samples|, 4);
  }
}
