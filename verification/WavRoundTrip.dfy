/** Writing WAVE files, and what the decoder makes of them. A PCM16 mono `fmt ` chunk
    has format tag 1, one channel, block align 2 and 16 bits a sample (Multimedia
    Programming Interface and Data Specifications 1.0, chapter 3). */
module WavRoundTrip {
  import opened WavWalk

  function Le16(v: nat): (r: Bytes)
    ensures |r| == 2
  {
    [v % 256, v / 256 % 256]
  }

  /** The low 32 bits of `v`. */
  function Le32(v: nat): (r: Bytes)
    ensures |r| == 4
  {
    [v % 256, v / 256 % 256, v / 256 / 256 % 256, v / 256 / 256 / 256 % 256]
  }

  lemma TwoDigits(v: nat)
    ensures v == v % 256 + 256 * (v / 256 % 256) + 65536 * (v / 256 / 256)
  {
    var x := v / 256;
    assert v == v % 256 + 256 * x && x == x % 256 + 256 * (x / 256);
  }

  lemma LowDigits(v: nat, d0: nat, d1: nat, d2: nat, d3: nat)
    requires d0 == v % 256 && d1 == v / 256 % 256 && d2 == v / 256 / 256 % 256 && d3 == v / 256 / 256 / 256 % 256
    ensures d0 + 256 * d1 + 65536 * (d2 + 256 * d3) == v % 0x1_0000_0000
  {
    var high := v / 256 / 256;
    TwoDigits(v);
    TwoDigits(high);
    Remainder(v, d0 + 256 * d1 + 65536 * (d2 + 256 * d3), high / 256 / 256);
  }

  lemma Remainder(v: nat, low: nat, q: nat)
    requires v == low + 0x1_0000_0000 * q && low < 0x1_0000_0000
    ensures low == v % 0x1_0000_0000
  {
  }

  lemma Le32Reads(b: Bytes, at: nat, v: nat)
    requires at + 4 <= |b| && b[at..at + 4] == Le32(v)
    ensures U32(b, at) == v % 0x1_0000_0000
    ensures v < 0x1_0000_0000 ==> U32(b, at) == v
  {
    var r := Le32(v);
    assert b[at] == b[at..at + 4][0] && b[at + 1] == b[at..at + 4][1];
    assert b[at + 2] == b[at..at + 4][2] && b[at + 3] == b[at..at + 4][3];
    LowDigits(v, r[0], r[1], r[2], r[3]);
  }

  lemma Le16Reads(b: Bytes, at: nat, v: nat)
    requires at + 2 <= |b| && b[at..at + 2] == Le16(v) && v < 65536
    ensures U16(b, at) == v
  {
    assert b[at] == b[at..at + 2][0] && b[at + 1] == b[at..at + 2][1];
  }

  type Pcm = s: int | -32768 <= s < 32768

  /** The unsigned word that carries a sample. */
  function Word(s: Pcm): (u: nat)
    ensures u < 65536 && I16(u) == s
  {
    if s < 0 then s as int + 65536 else s
  }

  function PcmBytes(samples: seq<Pcm>): (r: Bytes)
    ensures |r| == 2 * |samples|
  {
    if samples == [] then [] else Le16(Word(samples[0])) + PcmBytes(samples[1..])
  }

  function Pad(body: Bytes): (r: Bytes)
    ensures |r| == |body| % 2
  {
    if |body| % 2 == 1 then [0] else []
  }

  datatype Foreign = Foreign(id: Bytes, body: Bytes) {
    predicate Valid() {
      |id| == 4 && id != FMT && id != DATA && |body| < UNKNOWN_SIZE
    }

    function Write(): Bytes {
      id + Le32(|body|) + body + Pad(body)
    }
  }

  function WriteForeign(chunks: seq<Foreign>): Bytes {
    if chunks == [] then [] else chunks[0].Write() + WriteForeign(chunks[1..])
  }

  /** A PCM16 mono format chunk; `extra` is what extensible chunks append. */
  function FmtBody(rate: nat, byteRate: nat, extra: Bytes): Bytes {
    Le16(1) + Le16(1) + Le32(rate) + Le32(byteRate) + Le16(2) + Le16(16) + extra
  }

  function WriteFmt(rate: nat, byteRate: nat, extra: Bytes): Bytes {
    FMT + Le32(|FmtBody(rate, byteRate, extra)|) + FmtBody(rate, byteRate, extra) + Pad(FmtBody(rate, byteRate, extra))
  }

  function ChunkBytes(id: Bytes, size: nat, body: Bytes): (r: Bytes)
    ensures |r| == |id| + 4 + |body|
  {
    id + Le32(size) + body
  }

  function WriteData(samples: seq<Pcm>): Bytes {
    ChunkBytes(DATA, 2 * |samples|, PcmBytes(samples))
  }

  /** `part` stands in `b` at position `at`. */
  predicate At(b: Bytes, at: nat, part: Bytes) {
    at + |part| <= |b| && b[at..at + |part|] == part
  }

  lemma AtParts(b: Bytes, at: nat, x: Bytes, y: Bytes)
    requires At(b, at, x + y)
    ensures At(b, at, x) && At(b, at + |x|, y)
  {
    assert b[at..at + |x|] == (x + y)[..|x|];
    assert b[at + |x|..at + |x| + |y|] == (x + y)[|x|..];
  }

  lemma ForeignTurn(b: Bytes, w: Walk, chunk: Foreign)
    requires chunk.Valid() && At(b, w.pos, chunk.Write()) && !(w.dataSeen && w.audioFormat != 0)
    ensures w.pos + 8 <= |b| && WalkTurn(b, w) == Continue(w.(pos := w.pos + |chunk.Write()|))
  {
    AtParts(b, w.pos, chunk.id + Le32(|chunk.body|) + chunk.body, Pad(chunk.body));
    AtParts(b, w.pos, chunk.id + Le32(|chunk.body|), chunk.body);
    AtParts(b, w.pos, chunk.id, Le32(|chunk.body|));
    Le32Reads(b, w.pos + 4, |chunk.body|);
  }

  /** Foreign chunks are stepped over, whatever they hold. */
  lemma {:induction false} ForeignSkipped(b: Bytes, w: Walk, chunks: seq<Foreign>)
    requires (forall c :: c in chunks ==> c.Valid()) && At(b, w.pos, WriteForeign(chunks))
    requires !(w.dataSeen && w.audioFormat != 0)
    ensures WalkChunks(b, w) == WalkChunks(b, w.(pos := w.pos + |WriteForeign(chunks)|))
    decreases |chunks|
  {
    hide WalkTurn, U32;
    if chunks == [] {
      assert w.(pos := w.pos) == w;
    } else {
      AtParts(b, w.pos, chunks[0].Write(), WriteForeign(chunks[1..]));
      ForeignTurn(b, w, chunks[0]);
      ForeignSkipped(b, w.(pos := w.pos + |chunks[0].Write()|), chunks[1..]);
    }
  }

  function WithFmt(w: Walk, rate: nat): Walk {
    w.(audioFormat := 1, channels := 1, sampleRate := rate, blockAlign := 2, bitsPerSample := 16)
  }

  lemma FmtRead(b: Bytes, w: Walk, rate: nat, byteRate: nat, extra: Bytes)
    requires At(b, w.pos, WriteFmt(rate, byteRate, extra)) && rate < 0x1_0000_0000 && 16 + |extra| < UNKNOWN_SIZE
    ensures w.pos + 8 <= |b| && b[w.pos..w.pos + 4] == FMT && U32(b, w.pos + 4) == 16 + |extra|
    ensures w.pos + 8 + 16 + |extra| + (16 + |extra|) % 2 <= |b|
    ensures ReadChunk(b, w).Ok? && ReadChunk(b, w).value == WithFmt(w, rate)
  {
    hide U16, U32, Le16, Le32;
    var body := FmtBody(rate, byteRate, extra);
    AtParts(b, w.pos, FMT + Le32(|body|) + body, Pad(body));
    AtParts(b, w.pos, FMT + Le32(|body|), body);
    AtParts(b, w.pos, FMT, Le32(|body|));
    Le32Reads(b, w.pos + 4, |body|);
    FmtFields(b, w.pos + 8, rate, byteRate, extra);
  }

  lemma FmtFields(b: Bytes, at: nat, rate: nat, byteRate: nat, extra: Bytes)
    requires At(b, at, FmtBody(rate, byteRate, extra)) && rate < 0x1_0000_0000
    ensures at + 16 <= |b|
    ensures U16(b, at) == 1 && U16(b, at + 2) == 1 && U32(b, at + 4) == rate && U16(b, at + 12) == 2 && U16(b, at + 14) == 16
  {
    hide U16, U32, Le16, Le32;
    AtParts(b, at, Le16(1) + Le16(1) + Le32(rate) + Le32(byteRate) + Le16(2) + Le16(16), extra);
    AtParts(b, at, Le16(1) + Le16(1) + Le32(rate) + Le32(byteRate) + Le16(2), Le16(16));
    AtParts(b, at, Le16(1) + Le16(1) + Le32(rate) + Le32(byteRate), Le16(2));
    AtParts(b, at, Le16(1) + Le16(1) + Le32(rate), Le32(byteRate));
    AtParts(b, at, Le16(1) + Le16(1), Le32(rate));
    AtParts(b, at, Le16(1), Le16(1));
    Le16Reads(b, at, 1);
    Le16Reads(b, at + 2, 1);
    Le32Reads(b, at + 4, rate);
    Le16Reads(b, at + 12, 2);
    Le16Reads(b, at + 14, 16);
  }

  lemma ChunkHeader(b: Bytes, at: nat, id: Bytes, size: nat, body: Bytes)
    requires |id| == 4 && size < 0x1_0000_0000 && At(b, at, ChunkBytes(id, size, body))
    ensures at + 8 <= |b| && b[at..at + 4] == id && U32(b, at + 4) == size && At(b, at + 8, body)
  {
    hide U32, Le32;
    AtParts(b, at, id + Le32(size), body);
    AtParts(b, at, id, Le32(size));
    Le32Reads(b, at + 4, size);
  }

  /** The walk's variables after a data chunk of `size` bytes. */
  function WithData(w: Walk, size: nat): Walk {
    w.(dataStart := w.pos + 8, dataLen := size, dataUnknown := false, dataSeen := true)
  }

  lemma DataRead(b: Bytes, w: Walk, size: nat, body: Bytes)
    requires |body| == size < UNKNOWN_SIZE && At(b, w.pos, ChunkBytes(DATA, size, body))
    ensures w.pos + 8 + size <= |b| && b[w.pos..w.pos + 4] == DATA && U32(b, w.pos + 4) == size
    ensures At(b, w.pos + 8, body)
    ensures ReadChunk(b, w).Ok? && ReadChunk(b, w).value == WithData(w, size)
  {
    hide U16, U32, ChunkBytes;
    ChunkHeader(b, w.pos, DATA, size, body);
  }

  lemma {:induction false} PcmReads(b: Bytes, at: nat, samples: seq<Pcm>, i: nat)
    requires At(b, at, PcmBytes(samples)) && i < |samples|
    ensures at + 2 * i + 2 <= |b| && Sample(b, at + 2 * i) == Scaled(samples[i])
    decreases i
  {
    hide Le16;
    AtParts(b, at, Le16(Word(samples[0])), PcmBytes(samples[1..]));
    if i == 0 {
      Le16Reads(b, at, Word(samples[0]));
    } else {
      PcmReads(b, at + 2, samples[1..], i - 1);
    }
  }

  function Normalized(samples: seq<Pcm>): seq<real> {
    seq(|samples|, i requires 0 <= i < |samples| => samples[i] as real / 32768.0)
  }

  lemma FrameAt(b: Bytes, at: nat, frames: nat, i: nat)
    requires at + frames * 2 <= |b| && i < frames
    ensures Frames(b, at, 2, frames)[i] == Sample(b, at + 2 * i)
  {
    hide Sample;
    assert i * 2 == 2 * i;
  }

  lemma FramesRead(b: Bytes, at: nat, samples: seq<Pcm>)
    requires At(b, at, PcmBytes(samples))
    ensures at + |samples| * 2 <= |b| && Frames(b, at, 2, |samples|) == Normalized(samples)
  {
    hide *;
    SamplesFit(b, at, samples);
    var n := |samples|;
    var read, want := Frames(b, at, 2, n), Normalized(samples);
    NormalizedAt(samples);
    forall i | 0 <= i < n ensures read[i] == want[i] {
      PcmReads(b, at, samples, i);
      FrameAt(b, at, n, i);
    }
    assert read == want;
  }

  lemma SamplesFit(b: Bytes, at: nat, samples: seq<Pcm>)
    requires At(b, at, PcmBytes(samples))
    ensures at + |samples| * 2 <= |b|
  {
    hide PcmBytes;
  }

  lemma NormalizedAt(samples: seq<Pcm>)
    ensures |Normalized(samples)| == |samples|
    ensures forall i :: 0 <= i < |samples| ==> Normalized(samples)[i] == Scaled(samples[i])
  {
  }

  /** The decoder's answer once the walk has found the format and the samples. */
  lemma JudgeReads(b: Bytes, w: Walk, samples: seq<Pcm>, monoOnly: bool)
    requires w.audioFormat == 1 && w.channels == 1 && w.blockAlign == 2 && w.bitsPerSample == 16
    requires 0 < w.dataStart && w.dataLen == 2 * |samples| && !w.dataUnknown && At(b, w.dataStart, PcmBytes(samples))
    ensures Inside(b, w) && Judge(b, w, monoOnly) == Accepted(Normalized(samples), w.sampleRate, 1)
  {
    hide Frames, Normalized, PcmBytes;
    FramesRead(b, w.dataStart, samples);
    assert 2 * |samples| / 2 == |samples|;
  }

  // ------------------------------------------------------------- main results

  function Header(riffSize: nat): (r: Bytes)
    ensures |r| == 12
  {
    RIFF + Le32(riffSize) + WAVE
  }

  /** A whole file: foreign chunks anywhere before the data, any bytes after it. The RIFF
      size is whatever the producer wrote. */
  function WavFile(riffSize: nat, before: seq<Foreign>, rate: nat, byteRate: nat, extra: Bytes, between: seq<Foreign>,
                   samples: seq<Pcm>, trailing: Bytes): Bytes {
    Header(riffSize) + (WriteForeign(before) + (WriteFmt(rate, byteRate, extra) + (WriteForeign(between) + (WriteData(samples) + trailing))))
  }

  lemma HeaderAccepted(b: Bytes, riffSize: nat, rest: Bytes)
    requires b == Header(riffSize) + rest
    ensures b[0..4] == RIFF && b[8..12] == WAVE && At(b, 12, rest)
  {
  }

  lemma FmtStage(b: Bytes, w: Walk, rate: nat, byteRate: nat, extra: Bytes)
    requires At(b, w.pos, WriteFmt(rate, byteRate, extra)) && rate < 0x1_0000_0000 && 16 + |extra| < UNKNOWN_SIZE && !w.dataSeen
    ensures WalkChunks(b, w) == WalkChunks(b, WithFmt(w, rate).(pos := w.pos + |WriteFmt(rate, byteRate, extra)|))
  {
    hide U32, ReadChunk;
    FmtRead(b, w, rate, byteRate, extra);
    assert |FmtBody(rate, byteRate, extra)| == 16 + |extra|;
    WalkContinues(b, w);
  }

  lemma WalkContinues(b: Bytes, w: Walk)
    requires w.pos + 8 <= |b| && WalkTurn(b, w).Continue? && w.pos < WalkTurn(b, w).w.pos
    ensures WalkChunks(b, w) == WalkChunks(b, WalkTurn(b, w).w)
  {
  }

  /** A data chunk after the format ends the walk. */
  lemma DataStage(b: Bytes, w: Walk, samples: seq<Pcm>)
    requires At(b, w.pos, WriteData(samples)) && 2 * |samples| < UNKNOWN_SIZE && w.audioFormat != 0
    ensures At(b, w.pos + 8, PcmBytes(samples))
    ensures WalkChunks(b, w) == Parsed(WithData(w, 2 * |samples|))
  {
    hide U32, ReadChunk;
    DataRead(b, w, 2 * |samples|, PcmBytes(samples));
  }

  /** The walk's variables when format and samples have both been found. */
  predicate Found(b: Bytes, w: Walk, rate: nat, samples: seq<Pcm>) {
    && w.audioFormat == 1 && w.channels == 1 && w.sampleRate == rate && w.blockAlign == 2 && w.bitsPerSample == 16
    && 0 < w.dataStart && w.dataLen == 2 * |samples| && !w.dataUnknown && At(b, w.dataStart, PcmBytes(samples))
  }

  lemma FormatThenData(b: Bytes, w: Walk, rate: nat, byteRate: nat, extra: Bytes, between: seq<Foreign>, samples: seq<Pcm>, trailing: Bytes)
    returns (last: Walk)
    requires forall c :: c in between ==> c.Valid()
    requires rate < 0x1_0000_0000 && 16 + |extra| < UNKNOWN_SIZE && 2 * |samples| < UNKNOWN_SIZE && !w.dataSeen
    requires At(b, w.pos, WriteFmt(rate, byteRate, extra) + (WriteForeign(between) + (WriteData(samples) + trailing)))
    ensures WalkChunks(b, w) == Parsed(last) && Found(b, last, rate, samples)
  {
    hide U16, U32, Le16, Le32, WriteForeign, PcmBytes, WriteFmt, WalkChunks, At, WriteData;
    var r5 := WriteData(samples) + trailing;
    var r4 := WriteForeign(between) + r5;
    AtParts(b, w.pos, WriteFmt(rate, byteRate, extra), r4);
    FmtStage(b, w, rate, byteRate, extra);
    var w2 := WithFmt(w, rate).(pos := w.pos + |WriteFmt(rate, byteRate, extra)|);
    AtParts(b, w2.pos, WriteForeign(between), r5);
    ForeignSkipped(b, w2, between);
    var w3 := w2.(pos := w2.pos + |WriteForeign(between)|);
    AtParts(b, w3.pos, WriteData(samples), trailing);
    DataStage(b, w3, samples);
    last := WithData(w3, 2 * |samples|);
  }

  /** Every such file decodes to exactly the samples and the rate written in it. */
  lemma DecodesWhatWasWritten(riffSize: nat, before: seq<Foreign>, rate: nat, byteRate: nat, extra: Bytes, between: seq<Foreign>,
                              samples: seq<Pcm>, trailing: Bytes, monoOnly: bool)
    requires forall c :: c in before + between ==> c.Valid()
    requires rate < 0x1_0000_0000 && 16 + |extra| < UNKNOWN_SIZE && 2 * |samples| < UNKNOWN_SIZE
    ensures Decode(WavFile(riffSize, before, rate, byteRate, extra, between, samples, trailing), monoOnly)
            == Accepted(Normalized(samples), rate, 1)
  {
    hide U16, U32, Le16, Le32, Judge, WriteForeign, PcmBytes, WriteFmt, WriteData, WalkChunks, Normalized, At, Header;
    var b := WavFile(riffSize, before, rate, byteRate, extra, between, samples, trailing);
    var rest := WriteFmt(rate, byteRate, extra) + (WriteForeign(between) + (WriteData(samples) + trailing));
    HeaderAccepted(b, riffSize, WriteForeign(before) + rest);
    AtParts(b, 12, WriteForeign(before), rest);
    assert forall c :: c in before || c in between ==> c in before + between;
    ForeignSkipped(b, START, before);
    var last := FormatThenData(b, START.(pos := 12 + |WriteForeign(before)|), rate, byteRate, extra, between, samples, trailing);
    JudgeReads(b, last, samples, monoOnly);
    LongEnough(riffSize, before, rate, byteRate, extra, between, samples, trailing);
  }

  lemma LongEnough(riffSize: nat, before: seq<Foreign>, rate: nat, byteRate: nat, extra: Bytes, between: seq<Foreign>,
                   samples: seq<Pcm>, trailing: Bytes)
    ensures 44 <= |WavFile(riffSize, before, rate, byteRate, extra, between, samples, trailing)|
  {
    hide WriteForeign, PcmBytes;
  }

  /** A file written to a stream: the size of the samples is not known in advance, and they
      run to the end. */
  function StreamedFile(riffSize: nat, before: seq<Foreign>, rate: nat, byteRate: nat, extra: Bytes, between: seq<Foreign>,
                        samples: seq<Pcm>): Bytes {
    Header(riffSize) + (WriteForeign(before) + (WriteFmt(rate, byteRate, extra) + (WriteForeign(between) +
    ChunkBytes(DATA, UNKNOWN_SIZE, PcmBytes(samples)))))
  }

  /** The walk's variables after an open-ended data chunk of `size` bytes. */
  function WithOpenData(w: Walk, size: nat): Walk {
    w.(dataStart := w.pos + 8, dataLen := size, dataUnknown := true, dataSeen := true)
  }

  /** An open-ended data chunk after the format ends the walk, with all that is left. */
  lemma OpenDataStage(b: Bytes, w: Walk, samples: seq<Pcm>)
    requires At(b, w.pos, ChunkBytes(DATA, UNKNOWN_SIZE, PcmBytes(samples))) && w.audioFormat != 0
    requires w.pos + 8 + 2 * |samples| == |b|
    ensures At(b, w.pos + 8, PcmBytes(samples))
    ensures WalkChunks(b, w) == Parsed(WithOpenData(w, 2 * |samples|))
  {
    hide U32, ReadChunk, PcmBytes, ChunkBytes, At;
    OpenDataRead(b, w, PcmBytes(samples));
    FinishesAtData(b, w);
  }

  lemma FinishesAtData(b: Bytes, w: Walk)
    requires w.pos + 8 <= |b| && ReadChunk(b, w).Ok?
    requires ReadChunk(b, w).value.dataSeen && ReadChunk(b, w).value.audioFormat != 0
    ensures WalkChunks(b, w) == Parsed(ReadChunk(b, w).value)
  {
    hide U32, ReadChunk;
  }

  lemma OpenDataRead(b: Bytes, w: Walk, body: Bytes)
    requires At(b, w.pos, ChunkBytes(DATA, UNKNOWN_SIZE, body)) && w.pos + 8 + |body| == |b|
    ensures w.pos + 8 <= |b| && b[w.pos..w.pos + 4] == DATA && U32(b, w.pos + 4) == UNKNOWN_SIZE
    ensures At(b, w.pos + 8, body)
    ensures ReadChunk(b, w).Ok? && ReadChunk(b, w).value == WithOpenData(w, |body|)
  {
    hide U16, U32, ChunkBytes;
    ChunkHeader(b, w.pos, DATA, UNKNOWN_SIZE, body);
  }

  lemma JudgeReadsOpen(b: Bytes, w: Walk, samples: seq<Pcm>, monoOnly: bool)
    requires w.audioFormat == 1 && w.channels == 1 && w.blockAlign == 2 && w.bitsPerSample == 16
    requires 0 < w.dataStart && w.dataLen == 2 * |samples| && w.dataUnknown && At(b, w.dataStart, PcmBytes(samples))
    ensures Inside(b, w) && Judge(b, w, monoOnly) == Accepted(Normalized(samples), w.sampleRate, 1)
  {
    hide Frames, Normalized, PcmBytes;
    FramesRead(b, w.dataStart, samples);
    assert 2 * |samples| / 2 == |samples|;
  }

  /** Such a file too decodes to exactly the samples and the rate written in it. */
  lemma DecodesStreamed(riffSize: nat, before: seq<Foreign>, rate: nat, byteRate: nat, extra: Bytes, between: seq<Foreign>,
                        samples: seq<Pcm>, monoOnly: bool)
    requires forall c :: c in before + between ==> c.Valid()
    requires rate < 0x1_0000_0000 && 16 + |extra| < UNKNOWN_SIZE
    ensures Decode(StreamedFile(riffSize, before, rate, byteRate, extra, between, samples), monoOnly)
            == Accepted(Normalized(samples), rate, 1)
  {
    StreamedLength(riffSize, before, rate, byteRate, extra, between, samples);
    hide U16, U32, Le16, Le32, Judge, WriteForeign, PcmBytes, WriteFmt, ChunkBytes, WalkChunks, Normalized, At, Header;
    var b := StreamedFile(riffSize, before, rate, byteRate, extra, between, samples);
    var data := ChunkBytes(DATA, UNKNOWN_SIZE, PcmBytes(samples));
    var r4 := WriteForeign(between) + data;
    var r3 := WriteFmt(rate, byteRate, extra) + r4;
    HeaderAccepted(b, riffSize, WriteForeign(before) + r3);
    AtParts(b, 12, WriteForeign(before), r3);
    assert forall c :: c in before || c in between ==> c in before + between;
    ForeignSkipped(b, START, before);
    var w1 := START.(pos := 12 + |WriteForeign(before)|);
    AtParts(b, w1.pos, WriteFmt(rate, byteRate, extra), r4);
    FmtStage(b, w1, rate, byteRate, extra);
    var w2 := WithFmt(w1, rate).(pos := w1.pos + |WriteFmt(rate, byteRate, extra)|);
    AtParts(b, w2.pos, WriteForeign(between), data);
    ForeignSkipped(b, w2, between);
    var w3 := w2.(pos := w2.pos + |WriteForeign(between)|);
    OpenDataStage(b, w3, samples);
    JudgeReadsOpen(b, WithOpenData(w3, 2 * |samples|), samples, monoOnly);
  }

  lemma StreamedLength(riffSize: nat, before: seq<Foreign>, rate: nat, byteRate: nat, extra: Bytes, between: seq<Foreign>,
                       samples: seq<Pcm>)
    ensures |StreamedFile(riffSize, before, rate, byteRate, extra, between, samples)|
            == 12 + |WriteForeign(before)| + |WriteFmt(rate, byteRate, extra)| + |WriteForeign(between)| + 8 + 2 * |samples|
    ensures |WriteFmt(rate, byteRate, extra)| >= 24
  {
    hide WriteForeign, PcmBytes;
  }

  /** Foreign chunks, and then an open-ended data chunk: the decoder never returns. */
  lemma OpenEndedDataLoops(riffSize: nat, before: seq<Foreign>, tail: Bytes, monoOnly: bool)
    requires (forall c :: c in before ==> c.Valid()) && |tail| >= 24
    ensures Decode(Header(riffSize) + (WriteForeign(before) + ChunkBytes(DATA, UNKNOWN_SIZE, tail)), monoOnly).NeverReturns?
  {
    hide U16, U32, Le32, WriteForeign, ChunkBytes, WalkChunks, At, Header, Judge;
    var data := ChunkBytes(DATA, UNKNOWN_SIZE, tail);
    var b := Header(riffSize) + (WriteForeign(before) + data);
    HeaderAccepted(b, riffSize, WriteForeign(before) + data);
    AtParts(b, 12, WriteForeign(before), data);
    ForeignSkipped(b, START, before);
    var w := START.(pos := 12 + |WriteForeign(before)|);
    ChunkHeader(b, w.pos, DATA, UNKNOWN_SIZE, tail);
    OpenEndedSpins(b, w);
  }

  /** A format of tag 0 does not help: 44 bytes are enough. */
  lemma ZeroTagLoops(riffSize: nat, fmt: Bytes, tail: Bytes, monoOnly: bool)
    requires |fmt| == 16 && fmt[0] == 0 && fmt[1] == 0
    ensures Decode(Header(riffSize) + (ChunkBytes(FMT, 16, fmt) + ChunkBytes(DATA, UNKNOWN_SIZE, tail)), monoOnly).NeverReturns?
  {
    hide U32, Le32, WriteForeign, ChunkBytes, WalkChunks, At, Header, Judge;
    var data := ChunkBytes(DATA, UNKNOWN_SIZE, tail);
    var b := Header(riffSize) + (ChunkBytes(FMT, 16, fmt) + data);
    HeaderAccepted(b, riffSize, ChunkBytes(FMT, 16, fmt) + data);
    AtParts(b, 12, ChunkBytes(FMT, 16, fmt), data);
    ChunkHeader(b, 12, FMT, 16, fmt);
    FirstTwo(b, 20, fmt);
    ChunkHeader(b, 36, DATA, UNKNOWN_SIZE, tail);
    WalkContinues(b, START);
    OpenEndedSpins(b, WalkTurn(b, START).w);
  }

  lemma FirstTwo(b: Bytes, at: nat, part: Bytes)
    requires At(b, at, part) && |part| >= 2 && part[0] == 0 && part[1] == 0
    ensures at + 2 <= |b| && U16(b, at) == 0
  {
    assert b[at..at + |part|][0] == b[at] && b[at..at + |part|][1] == b[at + 1];
  }

  /** The same file with the data chunk before the format. */
  function DataFirstFile(riffSize: nat, before: seq<Foreign>, samples: seq<Pcm>, between: seq<Foreign>,
                         rate: nat, byteRate: nat, extra: Bytes, trailing: Bytes): Bytes {
    Header(riffSize) + (WriteForeign(before) + (WriteData(samples) + (WriteForeign(between) + (WriteFmt(rate, byteRate, extra) + trailing))))
  }

  /** A data chunk of known size before any format is remembered and stepped over. */
  lemma EarlyDataStage(b: Bytes, w: Walk, samples: seq<Pcm>)
    requires At(b, w.pos, WriteData(samples)) && 2 * |samples| < UNKNOWN_SIZE && w.audioFormat == 0
    ensures At(b, w.pos + 8, PcmBytes(samples))
    ensures WalkChunks(b, w)
            == WalkChunks(b, WithData(w, 2 * |samples|).(pos := w.pos + |WriteData(samples)|))
  {
    hide U32, ReadChunk;
    DataRead(b, w, 2 * |samples|, PcmBytes(samples));
    assert 2 * |samples| % 2 == 0;
    WalkContinues(b, w);
  }

  /** A format after the data ends the walk. */
  lemma LateFmtStage(b: Bytes, w: Walk, rate: nat, byteRate: nat, extra: Bytes)
    requires At(b, w.pos, WriteFmt(rate, byteRate, extra)) && rate < 0x1_0000_0000 && 16 + |extra| < UNKNOWN_SIZE && w.dataSeen
    ensures WalkChunks(b, w) == Parsed(WithFmt(w, rate))
  {
    hide U32, ReadChunk;
    FmtRead(b, w, rate, byteRate, extra);
  }

  lemma DataThenFormat(b: Bytes, w: Walk, samples: seq<Pcm>, between: seq<Foreign>, rate: nat, byteRate: nat, extra: Bytes, trailing: Bytes)
    returns (last: Walk)
    requires forall c :: c in between ==> c.Valid()
    requires rate < 0x1_0000_0000 && 16 + |extra| < UNKNOWN_SIZE && 2 * |samples| < UNKNOWN_SIZE && w.audioFormat == 0
    requires At(b, w.pos, WriteData(samples) + (WriteForeign(between) + (WriteFmt(rate, byteRate, extra) + trailing)))
    ensures WalkChunks(b, w) == Parsed(last) && Found(b, last, rate, samples)
  {
    hide U16, U32, Le16, Le32, WriteForeign, PcmBytes, WriteFmt, WalkChunks, At, WriteData;
    var r5 := WriteFmt(rate, byteRate, extra) + trailing;
    var r4 := WriteForeign(between) + r5;
    AtParts(b, w.pos, WriteData(samples), r4);
    EarlyDataStage(b, w, samples);
    var w2 := WithData(w, 2 * |samples|).(pos := w.pos + |WriteData(samples)|);
    AtParts(b, w2.pos, WriteForeign(between), r5);
    ForeignSkipped(b, w2, between);
    var w3 := w2.(pos := w2.pos + |WriteForeign(between)|);
    AtParts(b, w3.pos, WriteFmt(rate, byteRate, extra), trailing);
    LateFmtStage(b, w3, rate, byteRate, extra);
    last := WithFmt(w3, rate);
  }

  /** The order of the two chunks does not matter to the decoder. */
  lemma DecodesDataBeforeFormat(riffSize: nat, before: seq<Foreign>, samples: seq<Pcm>, between: seq<Foreign>,
                                rate: nat, byteRate: nat, extra: Bytes, trailing: Bytes, monoOnly: bool)
    requires forall c :: c in before + between ==> c.Valid()
    requires rate < 0x1_0000_0000 && 16 + |extra| < UNKNOWN_SIZE && 2 * |samples| < UNKNOWN_SIZE
    ensures Decode(DataFirstFile(riffSize, before, samples, between, rate, byteRate, extra, trailing), monoOnly)
            == Accepted(Normalized(samples), rate, 1)
  {
    hide U16, U32, Le16, Le32, Judge, WriteForeign, PcmBytes, WriteFmt, WriteData, WalkChunks, Normalized, At, Header;
    var b := DataFirstFile(riffSize, before, samples, between, rate, byteRate, extra, trailing);
    var rest := WriteData(samples) + (WriteForeign(between) + (WriteFmt(rate, byteRate, extra) + trailing));
    HeaderAccepted(b, riffSize, WriteForeign(before) + rest);
    AtParts(b, 12, WriteForeign(before), rest);
    assert forall c :: c in before || c in between ==> c in before + between;
    ForeignSkipped(b, START, before);
    var last := DataThenFormat(b, START.(pos := 12 + |WriteForeign(before)|), samples, between, rate, byteRate, extra, trailing);
    JudgeReads(b, last, samples, monoOnly);
    FmtLength(rate, byteRate, extra);
    DataLength(samples);
  }

  lemma DataLength(samples: seq<Pcm>)
    ensures |WriteData(samples)| >= 8
  {
  }

  lemma FmtLength(rate: nat, byteRate: nat, extra: Bytes)
    ensures |WriteFmt(rate, byteRate, extra)| >= 24
  {
  }

  // ------------------------------------------------------------ the generator

  function Silence(n: nat): seq<Pcm> {
    seq(n, i => 0)
  }

  function Zeros(n: nat): Bytes {
    seq(n, i => 0)
  }

  const GENERATED_FMT: Bytes := FMT + [16, 0, 0, 0, 1, 0, 1, 0, 0x80, 0x3E, 0, 0, 0x00, 0x7D, 0, 0, 2, 0, 16, 0]

  /** What the generator writes for `n` samples. */
  function Generated(n: nat): (r: Bytes)
    ensures |r| == 44 + 2 * n
  {
    Header(36 + 2 * n) + GENERATED_FMT + DATA + Le32(2 * n) + Zeros(2 * n)
  }

  lemma GeneratedAt(n: nat, k: nat)
    requires k < 44 + 2 * n
    ensures Generated(n)[k] ==
            if k < 4 then RIFF[k]
            else if k < 8 then Le32(36 + 2 * n)[k - 4]
            else if k < 12 then WAVE[k - 8]
            else if k < 16 then FMT[k - 12]
            else if k < 36 then GENERATED_FMT[k - 12]
            else if k < 40 then DATA[k - 36]
            else if k < 44 then Le32(2 * n)[k - 40]
            else 0
  {
    hide Le32;
  }

  method CopyInto(data: array<byte>, at: nat, part: Bytes)
    requires at + |part| <= data.Length
    modifies data
    ensures forall k :: 0 <= k < data.Length ==> data[k] == if at <= k < at + |part| then part[k - at] else old(data[k])
  {
    for i := 0 to |part|
      invariant forall k :: 0 <= k < data.Length ==> data[k] == if at <= k < at + i then part[k - at] else old(data[k])
    {
      data[at + i] := part[i];
    }
  }

  /** `byte(v)`, `byte(v >> 8)`, `byte(v >> 16)` and `byte(v >> 24)`, at four places. */
  method PutSize(data: array<byte>, at: nat, v: nat)
    requires at + 4 <= data.Length
    modifies data
    ensures forall k :: 0 <= k < data.Length ==> data[k] == if at <= k < at + 4 then Le32(v)[k - at] else old(data[k])
  {
    data[at] := v % 256;
    data[at + 1] := v / 0x100 % 256;
    data[at + 2] := v / 0x1_0000 % 256;
    data[at + 3] := v / 0x100_0000 % 256;
    assert v / 0x1_0000 == v / 256 / 256 && v / 0x100_0000 == v / 256 / 256 / 256;
  }

  /** PCM, mono, 16000 Hz, 32000 bytes a second, two-byte frames of 16 bits. */
  method PutFormat(data: array<byte>)
    requires 36 <= data.Length && forall k :: 16 <= k < 36 ==> data[k] == 0
    modifies data
    ensures forall k :: 0 <= k < data.Length ==> data[k] == if 12 <= k < 36 then GENERATED_FMT[k - 12] else old(data[k])
  {
    CopyInto(data, 12, FMT);
    data[16] := 16;
    data[20] := 1;
    data[22] := 1;
    data[24] := 0x80;
    data[25] := 0x3E;
    data[28] := 0x00;
    data[29] := 0x7D;
    data[32] := 2;
    data[34] := 16;
  }

  method GenerateWavBytes(sampleCount: nat) returns (data: array<byte>)
    ensures fresh(data) && data[..] == Generated(sampleCount)
  {
    hide Le32;
    var subChunk2Size := sampleCount * 2;
    var chunkSize := 36 + subChunk2Size;
    data := new byte[44 + subChunk2Size](_ => 0);
    CopyInto(data, 0, RIFF);
    PutSize(data, 4, chunkSize);
    CopyInto(data, 8, WAVE);
    PutFormat(data);
    CopyInto(data, 36, DATA);
    PutSize(data, 40, subChunk2Size);
    ghost var want := Generated(sampleCount);
    forall k | 0 <= k < 44 + subChunk2Size ensures data[k] == want[k] {
      GeneratedAt(sampleCount, k);
    }
  }

  lemma WrapsAt32Bits(v: nat)
    ensures Le32(v) == Le32(v % 0x1_0000_0000)
  {
    var r, q := v % 0x1_0000_0000, v / 0x1_0000_0000;
    assert v == r + 0x1_0000_0000 * q;
    assert v / 256 == r / 256 + 0x100_0000 * q;
    assert v / 256 / 256 == r / 256 / 256 + 0x1_0000 * q;
    assert v / 256 / 256 / 256 == r / 256 / 256 / 256 + 0x100 * q;
  }

  lemma {:induction false} SilenceBytes(n: nat)
    ensures PcmBytes(Silence(n)) == Zeros(2 * n)
  {
    if n > 0 {
      assert Silence(n)[1..] == Silence(n - 1);
      SilenceBytes(n - 1);
      assert Zeros(2 * n) == [0, 0] + Zeros(2 * (n - 1));
    }
  }

  lemma GeneratedFormat()
    ensures GENERATED_FMT == WriteFmt(16000, 32000, [])
  {
    assert |FmtBody(16000, 32000, [])| == 16;
    assert Le32(16) == [16, 0, 0, 0] && Le32(16000) == [0x80, 0x3E, 0, 0] && Le32(32000) == [0x00, 0x7D, 0, 0];
  }

  /** The generator's output is such a file: as many samples as 32 bits can announce,
      and the rest as trailing bytes. */
  lemma GeneratedIsWavFile(n: nat)
    ensures var m := 2 * n % 0x1_0000_0000 / 2;
            && m <= n
            && Generated(n) == WavFile(36 + 2 * n, [], 16000, 32000, [], [], Silence(m), Zeros(2 * n - 2 * m))
  {
    hide Le32, PcmBytes, WriteFmt;
    var m := 2 * n % 0x1_0000_0000 / 2;
    assert 2 * m == 2 * n % 0x1_0000_0000;
    WrapsAt32Bits(2 * n);
    GeneratedFormat();
    SilenceBytes(m);
    assert Zeros(2 * n) == Zeros(2 * m) + Zeros(2 * n - 2 * m);
    assert Header(36 + 2 * n) + GENERATED_FMT + DATA + Le32(2 * n) + (Zeros(2 * m) + Zeros(2 * n - 2 * m))
        == Header(36 + 2 * n) + ([] + (GENERATED_FMT + ([] + ((DATA + Le32(2 * m) + Zeros(2 * m)) + Zeros(2 * n - 2 * m)))));
  }

  /** Generated audio decodes to silence at 16 kHz, as long as was asked for exactly when
      the data size fits in 32 bits. */
  lemma GeneratedDecodes(n: nat, monoOnly: bool)
    ensures var m := 2 * n % 0x1_0000_0000 / 2;
            && Decode(Generated(n), monoOnly) == Accepted(Normalized(Silence(m)), 16000, 1)
            && (m == n <==> 2 * n < 0x1_0000_0000)
  {
    hide Decode, WavFile, Generated, Normalized;
    var m := 2 * n % 0x1_0000_0000 / 2;
    assert 2 * m == 2 * n % 0x1_0000_0000;
    GeneratedIsWavFile(n);
    SilenceLength(m);
    DecodesWhatWasWritten(36 + 2 * n, [], 16000, 32000, [], [], Silence(m), Zeros(2 * n - 2 * m), monoOnly);
  }

  lemma SilenceLength(n: nat)
    ensures |Silence(n)| == n
  {
  }
}
