/** The RIFF/WAVE chunk walk. Multi-byte fields are little-endian (Multimedia
    Programming Interface and Data Specifications 1.0, chapter 2). */
module WavWalk {
  import opened Wrappers

  type byte = b: int | 0 <= b < 256
  type Bytes = seq<byte>

  const RIFF: Bytes := [0x52, 0x49, 0x46, 0x46]
  const WAVE: Bytes := [0x57, 0x41, 0x56, 0x45]
  const FMT: Bytes := [0x66, 0x6D, 0x74, 0x20]
  const DATA: Bytes := [0x64, 0x61, 0x74, 0x61]

  /** The size a streaming producer writes when it cannot know the real one. */
  const UNKNOWN_SIZE := 0xFFFF_FFFF

  function U16(b: Bytes, at: nat): (u: nat)
    requires at + 2 <= |b|
    ensures u < 65536
  {
    b[at] as int + 256 * (b[at + 1] as int)
  }

  function U32(b: Bytes, at: nat): nat
    requires at + 4 <= |b|
  {
    var lo: int, hi: int := b[at] as int + 256 * (b[at + 1] as int), b[at + 2] as int + 256 * (b[at + 3] as int);
    lo + 65536 * hi
  }

  function I16(u: nat): (s: int)
    requires u < 65536
    ensures -32768 <= s < 32768
  {
    if u >= 32768 then u - 65536 else u
  }

  datatype DecodeError =
    | HeaderTruncated | MissingSignature
    | ChunkOverrunsFile | FmtUnknownSize | FmtTooShort | UnknownSizeNonData
    | MissingFmt | MissingData | NotPcm16 | BitsNot16 | ZeroChannels | BlockAlignMismatch
    | DataTruncated | NotFrameAligned | MultiChannel
    | TooManyBytes | Empty | RateOutOfBounds | TooLong

  /** The variables of the walk. */
  datatype Walk = Walk(
    pos: nat,
    audioFormat: nat, channels: nat, sampleRate: nat, blockAlign: nat, bitsPerSample: nat,
    dataStart: nat, dataLen: nat, dataUnknown: bool, dataSeen: bool)

  const START := Walk(12, 0, 0, 0, 0, 0, 0, 0, false, false)

  datatype Turn = Continue(w: Walk) | Finish(w: Walk) | Reject(err: DecodeError)

  /** The chunk at `pos`, read into the walk's variables. */
  function ReadChunk(b: Bytes, w: Walk): Result<Walk, DecodeError>
    requires w.pos + 8 <= |b|
  {
    var id, size, avail := b[w.pos..w.pos + 4], U32(b, w.pos + 4), |b| - w.pos - 8;
    if size != UNKNOWN_SIZE && size > avail && id != DATA then Err(ChunkOverrunsFile)
    else if id == FMT then
      if size == UNKNOWN_SIZE then Err(FmtUnknownSize)
      else if size < 16 || size > avail then Err(FmtTooShort)
      else
        var f := w.pos + 8;
        Ok(w.(audioFormat := U16(b, f), channels := U16(b, f + 2), sampleRate := U32(b, f + 4),
              blockAlign := U16(b, f + 12), bitsPerSample := U16(b, f + 14)))
    else if id == DATA then
      Ok(w.(dataStart := w.pos + 8, dataSeen := true, dataUnknown := size == UNKNOWN_SIZE,
            dataLen := if size == UNKNOWN_SIZE then avail else size))
    else Ok(w)
  }

  lemma ReadChunkStays(b: Bytes, w: Walk)
    requires w.pos + 8 <= |b|
    ensures ReadChunk(b, w).Ok? ==> ReadChunk(b, w).value.pos == w.pos
  {
  }

  /** One iteration of the loop. */
  function WalkTurn(b: Bytes, w: Walk): Turn
    requires w.pos + 8 <= |b|
  {
    match ReadChunk(b, w)
    case Err(err) => Reject(err)
    case Ok(w1) =>
      var id, size := b[w.pos..w.pos + 4], U32(b, w.pos + 4);
      if w1.dataSeen && w1.audioFormat != 0 then Finish(w1)
      else if size != UNKNOWN_SIZE then
        var end := w.pos + 8 + size;
        if end > |b| then Finish(w1)
        else Continue(w1.(pos := if size % 2 == 1 && end < |b| then end + 1 else end))
      else if id != DATA then Reject(UnknownSizeNonData)
      else Continue(w1)
  }

  datatype Walked = Parsed(w: Walk) | Rejected(err: DecodeError) | Spins

  /** The whole loop. An iteration that leaves `pos` where it was is repeated for ever. */
  function WalkChunks(b: Bytes, w: Walk): Walked
    decreases |b| - w.pos
  {
    if w.pos + 8 > |b| then Parsed(w)
    else
      match WalkTurn(b, w)
      case Reject(err) => Rejected(err)
      case Finish(w1) => Parsed(w1)
      case Continue(w1) => if w1.pos <= w.pos then Spins else WalkChunks(b, w1)
  }

  /** A data chunk of unknown size at the walk's position, while the format tag is still 0:
      no format has been read, or one of tag 0. */
  predicate AtOpenEndedData(b: Bytes, w: Walk) {
    && w.pos + 8 <= |b| && b[w.pos..w.pos + 4] == DATA && U32(b, w.pos + 4) == UNKNOWN_SIZE
    && w.audioFormat == 0
  }

  /** An iteration that continues stays inside the buffer and moves on by eight bytes or
      more, except on an open-ended data chunk while the format tag is 0; that one changes
      nothing when it is repeated. */
  lemma TurnAdvances(b: Bytes, w: Walk)
    requires w.pos + 8 <= |b| && WalkTurn(b, w).Continue?
    ensures var w1 := WalkTurn(b, w).w;
            if AtOpenEndedData(b, w)
            then w1.pos == w.pos && AtOpenEndedData(b, w1) && WalkTurn(b, w1) == Continue(w1)
            else w.pos + 8 <= w1.pos <= |b|
  {
  }

  /** The loop's state after `n` iterations, if it is still running. */
  function Iterate(b: Bytes, w: Walk, n: nat): Option<Walk>
    decreases n
  {
    if n == 0 then Some(w)
    else if w.pos + 8 > |b| then None
    else
      match WalkTurn(b, w)
      case Continue(w1) => Iterate(b, w1, n - 1)
      case _ => None
  }

  lemma {:induction false} SpinsForEver(b: Bytes, w: Walk, n: nat)
    requires w.pos + 8 <= |b| && WalkTurn(b, w) == Continue(w)
    ensures Iterate(b, w, n) == Some(w)
    decreases n
  {
    if n > 0 {
      SpinsForEver(b, w, n - 1);
    }
  }

  lemma OpenEndedSpins(b: Bytes, w: Walk)
    requires AtOpenEndedData(b, w)
    ensures WalkChunks(b, w).Spins?
  {
  }

  /** The walk runs for ever exactly when it comes to an open-ended data chunk while the
      format tag is 0, and otherwise ends. */
  lemma {:induction false} WalkEndsUnlessOpenEnded(b: Bytes, w: Walk)
    ensures WalkChunks(b, w).Spins? <==> forall n: nat :: Iterate(b, w, n).Some?
    ensures WalkChunks(b, w).Spins? <==> exists n: nat :: Iterate(b, w, n).Some? && AtOpenEndedData(b, Iterate(b, w, n).value)
    decreases |b| - w.pos
  {
    if w.pos + 8 > |b| || !WalkTurn(b, w).Continue? {
      assert Iterate(b, w, 1).None?;
      forall n: nat | Iterate(b, w, n).Some? ensures !AtOpenEndedData(b, Iterate(b, w, n).value) {
        assert n == 0;
      }
    } else {
      var w1 := WalkTurn(b, w).w;
      TurnAdvances(b, w);
      if AtOpenEndedData(b, w) {
        forall n: nat ensures Iterate(b, w, n).Some? {
          if n > 0 {
            SpinsForEver(b, w1, n - 1);
          }
        }
        assert AtOpenEndedData(b, Iterate(b, w, 0).value);
      } else {
        WalkEndsUnlessOpenEnded(b, w1);
        if WalkChunks(b, w1).Spins? {
          forall n: nat ensures Iterate(b, w, n).Some? {
            if n > 0 {
              assert Iterate(b, w1, n - 1).Some?;
            }
          }
          var m: nat :| Iterate(b, w1, m).Some? && AtOpenEndedData(b, Iterate(b, w1, m).value);
          StepOn(b, w, m + 1);
        } else {
          var m: nat :| Iterate(b, w1, m).None?;
          StepOn(b, w, m + 1);
          forall n: nat | Iterate(b, w, n).Some? ensures !AtOpenEndedData(b, Iterate(b, w, n).value) {
            if n > 0 {
              StepOn(b, w, n);
            }
          }
        }
      }
    }
  }

  lemma StepOn(b: Bytes, w: Walk, n: nat)
    requires 0 < n && w.pos + 8 <= |b| && WalkTurn(b, w).Continue?
    ensures Iterate(b, w, n) == Iterate(b, WalkTurn(b, w).w, n - 1)
  {
  }

  // ------------------------------------------------------------------ decoding

  datatype Decoded =
    | Accepted(samples: seq<real>, sampleRate: nat, channels: nat)
    | Refused(err: DecodeError)
    | NeverReturns

  function Scaled(s: int): (x: real)
    requires -32768 <= s < 32768
    ensures -1.0 <= x < 1.0
  {
    s as real / 32768.0
  }

  function Sample(b: Bytes, at: nat): (x: real)
    requires at + 2 <= |b|
    ensures -1.0 <= x < 1.0
  {
    Scaled(I16(U16(b, at)))
  }

  /** The first channel of `frames` frames of `frameSize` bytes. */
  function Frames(b: Bytes, at: nat, frameSize: nat, frames: nat): (r: seq<real>)
    requires 2 <= frameSize && at + frames * frameSize <= |b|
    ensures |r| == frames
    ensures forall i :: 0 <= i < frames ==> -1.0 <= r[i] < 1.0
  {
    seq(frames, i requires 0 <= i < frames => FrameFits(at, frameSize, frames, i); Sample(b, at + i * frameSize))
  }

  lemma FrameFits(at: nat, frameSize: nat, frames: nat, i: nat)
    requires 2 <= frameSize && i < frames
    ensures 0 <= at + i * frameSize && at + i * frameSize + 2 <= at + frames * frameSize
  {
    var j := i + 1;
    assert j * frameSize <= frames * frameSize;
    assert j * frameSize == i * frameSize + frameSize;
  }

  /** The data the walk found starts inside the buffer, and open-ended data ends with it. */
  predicate Inside(b: Bytes, w: Walk) {
    w.dataStart <= |b| && (w.dataUnknown ==> w.dataStart + w.dataLen <= |b|)
  }

  lemma {:induction false} WalkStaysInside(b: Bytes, w: Walk)
    requires Inside(b, w)
    ensures WalkChunks(b, w).Parsed? ==> Inside(b, WalkChunks(b, w).w)
    decreases |b| - w.pos
  {
    if w.pos + 8 <= |b| && WalkTurn(b, w).Continue? && WalkTurn(b, w).w.pos > w.pos {
      WalkStaysInside(b, WalkTurn(b, w).w);
    }
  }

  /** What the checks after the walk make of its variables. */
  function Judge(b: Bytes, w: Walk, monoOnly: bool): Decoded
    requires Inside(b, w)
  {
    if w.audioFormat == 0 then Refused(MissingFmt)
    else if w.dataStart == 0 then Refused(MissingData)
    else if w.audioFormat != 1 then Refused(NotPcm16)
    else if w.bitsPerSample != 16 then Refused(BitsNot16)
    else if w.channels < 1 then Refused(ZeroChannels)
    else if w.blockAlign != w.channels * w.bitsPerSample / 8 then Refused(BlockAlignMismatch)
    else if !w.dataUnknown && w.dataStart + w.dataLen > |b| then Refused(DataTruncated)
    else
      var end := if w.dataStart + w.dataLen > |b| then |b| else w.dataStart + w.dataLen;
      var pcm := end - w.dataStart;
      var frameSize := w.channels * 2;
      if pcm % frameSize != 0 then Refused(NotFrameAligned)
      else if w.channels > 1 && monoOnly then Refused(MultiChannel)
      else
        assert pcm == pcm / frameSize * frameSize;
        Accepted(Frames(b, w.dataStart, frameSize, pcm / frameSize), w.sampleRate, 1)
  }

  function Decode(b: Bytes, monoOnly: bool): (r: Decoded)
    ensures r.Accepted? ==> r.channels == 1 && forall i :: 0 <= i < |r.samples| ==> -1.0 <= r.samples[i] < 1.0
  {
    if |b| < 44 then Refused(HeaderTruncated)
    else if b[0..4] != RIFF || b[8..12] != WAVE then Refused(MissingSignature)
    else
      match WalkChunks(b, START)
      case Spins => NeverReturns
      case Rejected(err) => Refused(err)
      case Parsed(w) => WalkStaysInside(b, START); Judge(b, w, monoOnly)
  }

  // ------------------------------------------------------------- what is accepted

  /** The format variables come from the `fmt ` chunk at `at`, which lies inside the file. */
  predicate FormatFrom(b: Bytes, w: Walk, at: nat) {
    && at + 24 <= |b| && b[at..at + 4] == FMT && 16 <= U32(b, at + 4) <= |b| - at - 8
    && w.audioFormat == U16(b, at + 8) && w.channels == U16(b, at + 10) && w.sampleRate == U32(b, at + 12)
    && w.blockAlign == U16(b, at + 20) && w.bitsPerSample == U16(b, at + 22)
  }

  /** The data variables come from the `data` chunk at `at`: its declared size, or all that
      is left of the file when it declares none. */
  predicate DataFrom(b: Bytes, w: Walk, at: nat) {
    && at + 8 <= |b| && b[at..at + 4] == DATA && w.dataStart == at + 8
    && (w.dataUnknown <==> U32(b, at + 4) == UNKNOWN_SIZE)
    && w.dataLen == if w.dataUnknown then |b| - at - 8 else U32(b, at + 4)
  }

  /** Where the chunk after the one at `at` begins: past its body, padded to an even length
      (chapter 2 of the RIFF specification), though not past the end of the file. */
  function NextChunk(b: Bytes, at: nat): nat
    requires at + 8 <= |b|
  {
    var size := U32(b, at + 4);
    var end := at + 8 + size;
    if size % 2 == 1 && end < |b| then end + 1 else end
  }

  /** A chunk begins at `at`, counting from the one at `from`. */
  predicate ChunkAt(b: Bytes, from: nat, at: nat)
    decreases |b| - from
  {
    from == at ||
    (from + 8 <= |b| && U32(b, from + 4) != UNKNOWN_SIZE && NextChunk(b, from) <= |b| && ChunkAt(b, NextChunk(b, from), at))
  }

  lemma {:induction false} ChunkFollows(b: Bytes, from: nat, at: nat)
    requires ChunkAt(b, from, at) && at + 8 <= |b| && U32(b, at + 4) != UNKNOWN_SIZE && NextChunk(b, at) <= |b|
    ensures ChunkAt(b, from, NextChunk(b, at))
    decreases |b| - from
  {
    hide U32;
    if from != at {
      ChunkFollows(b, NextChunk(b, from), at);
    }
  }

  /** Format and data stem from chunks of the file. */
  ghost predicate Sourced(b: Bytes, w: Walk) {
    && (w.audioFormat != 0 ==> exists at: nat :: ChunkAt(b, 12, at) && FormatFrom(b, w, at))
    && (w.dataStart != 0 ==> exists at: nat :: ChunkAt(b, 12, at) && DataFrom(b, w, at))
  }

  lemma ReadChunkSourced(b: Bytes, w: Walk)
    requires Sourced(b, w) && ChunkAt(b, 12, w.pos) && w.pos + 8 <= |b| && ReadChunk(b, w).Ok?
    ensures Sourced(b, ReadChunk(b, w).value)
  {
    hide U16, U32, ChunkAt;
    var w1 := ReadChunk(b, w).value;
    if b[w.pos..w.pos + 4] == FMT {
      assert FormatFrom(b, w1, w.pos);
      assert forall at: nat :: DataFrom(b, w, at) ==> DataFrom(b, w1, at);
    } else if b[w.pos..w.pos + 4] == DATA {
      assert DataFrom(b, w1, w.pos);
      assert forall at: nat :: FormatFrom(b, w, at) ==> FormatFrom(b, w1, at);
    }
  }

  lemma MovedSourced(b: Bytes, w: Walk, pos: nat)
    requires Sourced(b, w)
    ensures Sourced(b, w.(pos := pos))
  {
    hide ChunkAt;
    assert forall at: nat :: FormatFrom(b, w, at) ==> FormatFrom(b, w.(pos := pos), at);
    assert forall at: nat :: DataFrom(b, w, at) ==> DataFrom(b, w.(pos := pos), at);
  }

  lemma TurnGoesToNextChunk(b: Bytes, w: Walk)
    requires w.pos + 8 <= |b| && WalkTurn(b, w).Continue? && WalkTurn(b, w).w.pos > w.pos
    ensures U32(b, w.pos + 4) != UNKNOWN_SIZE && WalkTurn(b, w).w.pos == NextChunk(b, w.pos) <= |b|
  {
    hide U32, U16;
  }

  lemma {:induction false} WalkIsSourced(b: Bytes, w: Walk)
    requires Sourced(b, w) && ChunkAt(b, 12, w.pos)
    ensures WalkChunks(b, w).Parsed? ==> Sourced(b, WalkChunks(b, w).w)
    decreases |b| - w.pos
  {
    hide Sourced, ReadChunk, U32, ChunkAt, NextChunk;
    if w.pos + 8 <= |b| && ReadChunk(b, w).Ok? {
      ReadChunkSourced(b, w);
      var turn := WalkTurn(b, w);
      if turn.Continue? {
        MovedSourced(b, ReadChunk(b, w).value, turn.w.pos);
        assert turn.w == ReadChunk(b, w).value.(pos := turn.w.pos);
        if turn.w.pos > w.pos {
          TurnGoesToNextChunk(b, w);
          ChunkFollows(b, 12, w.pos);
          WalkIsSourced(b, turn.w);
        }
      }
    }
  }

  /** The samples are the first channel of the frames of the chunk found at `at`, and the
      frames fill it exactly. */
  predicate SamplesFrom(b: Bytes, w: Walk, samples: seq<real>)
    requires w.channels >= 1 && w.dataStart + w.dataLen <= |b|
  {
    w.dataLen == |samples| * (w.channels * 2) && samples == Frames(b, w.dataStart, w.channels * 2, |samples|)
  }

  lemma JudgeAccepts(b: Bytes, w: Walk, monoOnly: bool)
    requires Inside(b, w) && Judge(b, w, monoOnly).Accepted?
    ensures w.audioFormat == 1 && w.bitsPerSample == 16 && 1 <= w.channels && w.blockAlign == 2 * w.channels
    ensures (monoOnly ==> w.channels == 1) && 0 < w.dataStart && w.dataStart + w.dataLen <= |b|
    ensures SamplesFrom(b, w, Judge(b, w, monoOnly).samples) && Judge(b, w, monoOnly).sampleRate == w.sampleRate
  {
    hide Frames;
    assert w.dataLen == w.dataLen / (w.channels * 2) * (w.channels * 2);
  }

  /** Nothing else is accepted: whatever the decoder accepts is a RIFF/WAVE file in which a
      16-bit PCM format chunk and a data chunk stand in the chain of chunks, the frames fill
      the data exactly, and the answer is their first channel and the declared rate. */
  lemma AcceptsOnlyPcm16(b: Bytes, monoOnly: bool)
    requires Decode(b, monoOnly).Accepted?
    ensures |b| >= 44 && b[0..4] == RIFF && b[8..12] == WAVE
    ensures exists w: Walk, fmtAt: nat, dataAt: nat ::
              && ChunkAt(b, 12, fmtAt) && FormatFrom(b, w, fmtAt) && ChunkAt(b, 12, dataAt) && DataFrom(b, w, dataAt)
              && w.audioFormat == 1 && w.bitsPerSample == 16 && 1 <= w.channels && w.blockAlign == 2 * w.channels
              && (monoOnly ==> w.channels == 1)
              && w.dataStart + w.dataLen <= |b|
              && SamplesFrom(b, w, Decode(b, monoOnly).samples) && Decode(b, monoOnly).sampleRate == w.sampleRate
  {
    assert ChunkAt(b, 12, 12);
    WalkStaysInside(b, START);
    WalkIsSourced(b, START);
    var w := WalkChunks(b, START).w;
    JudgeAccepts(b, w, monoOnly);
    hide U16, U32, WalkChunks, FormatFrom, DataFrom, Judge, ChunkAt, SamplesFrom, Inside;
    var fmtAt: nat :| ChunkAt(b, 12, fmtAt) && FormatFrom(b, w, fmtAt);
    var dataAt: nat :| ChunkAt(b, 12, dataAt) && DataFrom(b, w, dataAt);
  }

  // -------------------------------------------------------------- what is refused

  /** What is wrong with the chunk at `at`: it runs past the end of the file, which only a data
      chunk may; it is a format of unknown size, or one too short; or it is of unknown size and
      neither format nor data. */
  predicate BadChunk(b: Bytes, at: nat, err: DecodeError) {
    at + 8 <= |b| &&
    var id, size, left := b[at..at + 4], U32(b, at + 4), |b| - at - 8;
    match err
    case ChunkOverrunsFile => id != DATA && size != 0xFFFF_FFFF && size > left
    case FmtUnknownSize => id == FMT && size == 0xFFFF_FFFF
    case FmtTooShort => id == FMT && size < 16 && size <= left
    case UnknownSizeNonData => id != DATA && id != FMT && size == 0xFFFF_FFFF
    case _ => false
  }

  /** Format and data have both been read. */
  predicate Complete(w: Walk) {
    w.dataSeen && w.audioFormat != 0
  }

  lemma TurnRejectsIff(b: Bytes, w: Walk, err: DecodeError)
    requires w.pos + 8 <= |b| && !Complete(w)
    ensures WalkTurn(b, w) == Reject(err) <==> BadChunk(b, w.pos, err)
    ensures WalkTurn(b, w).Continue? ==> !Complete(WalkTurn(b, w).w)
  {
    hide U32, U16;
    UnknownIsLarge(b, w.pos + 4);
  }

  lemma UnknownIsLarge(b: Bytes, at: nat)
    requires at + 4 <= |b|
    ensures U32(b, at) <= UNKNOWN_SIZE
  {
  }

  /** After `n` iterations the walk comes to a chunk that is bad in that way. */
  predicate ComesToBad(b: Bytes, w: Walk, n: nat, err: DecodeError) {
    Iterate(b, w, n).Some? && BadChunk(b, Iterate(b, w, n).value.pos, err)
  }

  /** The walk rejects a file for exactly the bad chunk it comes to, if it comes to one before
      it has read format and data. */
  lemma {:induction false} RejectedIff(b: Bytes, w: Walk, err: DecodeError)
    requires !Complete(w)
    ensures WalkChunks(b, w) == Rejected(err) <==> exists n: nat :: ComesToBad(b, w, n, err)
    decreases |b| - w.pos
  {
    hide BadChunk, WalkTurn, Complete, ComesToBad;
    BadAtOnce(b, w, err);
    if w.pos + 8 <= |b| {
      TurnRejectsIff(b, w, err);
      if WalkTurn(b, w).Continue? {
        var w1 := WalkTurn(b, w).w;
        TurnAdvances(b, w);
        if AtOpenEndedData(b, w) {
          OpenEndedIsNotBad(b, w, err);
        } else {
          RejectedIff(b, w1, err);
          forall n: nat
            ensures ComesToBad(b, w, n + 1, err) <==> ComesToBad(b, w1, n, err)
          {
            BadLater(b, w, n, err);
          }
          assert forall n: nat :: ComesToBad(b, w, n, err) ==> n > 0 && ComesToBad(b, w1, n - 1, err);
          assert forall n: nat :: ComesToBad(b, w1, n, err) ==> ComesToBad(b, w, n + 1, err);
        }
      }
    }
  }

  /** Before the first iteration, and after it where it is the last. */
  lemma BadAtOnce(b: Bytes, w: Walk, err: DecodeError)
    ensures ComesToBad(b, w, 0, err) <==> BadChunk(b, w.pos, err)
    ensures w.pos + 8 > |b| ==> !BadChunk(b, w.pos, err)
    ensures forall n: nat :: n > 0 && (w.pos + 8 > |b| || !WalkTurn(b, w).Continue?) ==> !ComesToBad(b, w, n, err)
  {
    hide WalkTurn;
  }

  lemma BadLater(b: Bytes, w: Walk, n: nat, err: DecodeError)
    requires w.pos + 8 <= |b| && WalkTurn(b, w).Continue?
    ensures ComesToBad(b, w, n + 1, err) <==> ComesToBad(b, WalkTurn(b, w).w, n, err)
  {
    hide BadChunk, WalkTurn;
  }

  lemma OpenEndedIsNotBad(b: Bytes, w: Walk, err: DecodeError)
    requires AtOpenEndedData(b, w) && WalkTurn(b, w).Continue?
    ensures forall n: nat :: !ComesToBad(b, w, n, err)
  {
    TurnAdvances(b, w);
    var w1 := WalkTurn(b, w).w;
    forall n: nat
      ensures !ComesToBad(b, w, n, err)
    {
      if n > 0 {
        SpinsForEver(b, w1, n - 1);
      }
    }
  }

  /** What can be wrong with the variables of a finished walk, in the order of the checks. */
  function Faults(b: Bytes, w: Walk, monoOnly: bool): seq<(bool, DecodeError)> {
    [(w.audioFormat == 0, MissingFmt),
     (w.dataStart == 0, MissingData),
     (w.audioFormat != 1, NotPcm16),
     (w.bitsPerSample != 16, BitsNot16),
     (w.channels == 0, ZeroChannels),
     (w.blockAlign != 2 * w.channels, BlockAlignMismatch),
     (w.dataStart + w.dataLen > |b|, DataTruncated),
     (w.channels > 0 && w.dataLen % (2 * w.channels) != 0, NotFrameAligned),
     (w.channels > 1 && monoOnly, MultiChannel)]
  }

  /** The first fault is the one reported, and a walk without one is accepted. */
  lemma JudgedBy(b: Bytes, w: Walk, monoOnly: bool, k: nat)
    requires Inside(b, w) && k <= 9 && forall j :: 0 <= j < k ==> !Faults(b, w, monoOnly)[j].0
    ensures k < 9 && Faults(b, w, monoOnly)[k].0 ==> Judge(b, w, monoOnly) == Refused(Faults(b, w, monoOnly)[k].1)
    ensures k == 9 ==> Judge(b, w, monoOnly).Accepted?
  {
    hide Frames;
    var f := Faults(b, w, monoOnly);
    assert (k > 0 ==> !f[0].0) && (k > 1 ==> !f[1].0) && (k > 2 ==> !f[2].0) && (k > 3 ==> !f[3].0) && (k > 4 ==> !f[4].0)
           && (k > 5 ==> !f[5].0) && (k > 6 ==> !f[6].0) && (k > 7 ==> !f[7].0) && (k > 8 ==> !f[8].0);
    assert k > 3 ==> w.channels * w.bitsPerSample / 8 == 2 * w.channels;
  }

  /** Why the decoder refuses a file: it is too short, it bears no signature, the walk comes to
      a bad chunk, or the walk ends and its variables are at fault. */
  lemma RefusedAs(b: Bytes, monoOnly: bool)
    ensures |b| < 44 <==> Decode(b, monoOnly) == Refused(HeaderTruncated)
    ensures |b| >= 44 && (b[0..4] != RIFF || b[8..12] != WAVE) <==> Decode(b, monoOnly) == Refused(MissingSignature)
    ensures |b| >= 44 && b[0..4] == RIFF && b[8..12] == WAVE ==>
              && (forall n: nat, err :: ComesToBad(b, START, n, err) ==> Decode(b, monoOnly) == Refused(err))
              && (WalkChunks(b, START).Parsed? ==>
                    Inside(b, WalkChunks(b, START).w) && Decode(b, monoOnly) == Judge(b, WalkChunks(b, START).w, monoOnly))
  {
    WalkStaysInside(b, START);
    hide WalkChunks, ComesToBad, Frames;
    assert !Complete(START);
    if |b| >= 44 && b[0..4] == RIFF && b[8..12] == WAVE {
      forall n: nat, err | ComesToBad(b, START, n, err)
        ensures Decode(b, monoOnly) == Refused(err)
      {
        RejectedIff(b, START, err);
      }
      WalkErrorsAre(b, START);
    }
  }

  lemma {:induction false} WalkErrorsAre(b: Bytes, w: Walk)
    ensures WalkChunks(b, w) != Rejected(HeaderTruncated) && WalkChunks(b, w) != Rejected(MissingSignature)
    decreases |b| - w.pos
  {
    hide U16, U32;
    if w.pos + 8 <= |b| && WalkTurn(b, w).Continue? && WalkTurn(b, w).w.pos > w.pos {
      WalkErrorsAre(b, WalkTurn(b, w).w);
    }
  }

  /** The decoder never returns on exactly the files whose walk comes to such a chunk. */
  lemma NeverReturnsIff(b: Bytes, monoOnly: bool)
    ensures Decode(b, monoOnly).NeverReturns? <==>
            && |b| >= 44 && b[0..4] == RIFF && b[8..12] == WAVE
            && exists n: nat :: Iterate(b, START, n).Some? && AtOpenEndedData(b, Iterate(b, START, n).value)
  {
    hide WalkChunks, AtOpenEndedData, Iterate, Frames;
    WalkEndsUnlessOpenEnded(b, START);
    WalkStaysInside(b, START);
  }

  /** The switch on the chunk id. */
  method TakeChunk(b: Bytes, at: Walk) returns (r: Result<Walk, DecodeError>)
    requires at.pos + 8 <= |b|
    ensures r == ReadChunk(b, at)
  {
    var w := at;
    var id, size := b[w.pos..w.pos + 4], U32(b, w.pos + 4);
    var knownSize := size != UNKNOWN_SIZE;
    var avail := |b| - w.pos - 8;
    if knownSize && size > avail && id != DATA {
      return Err(ChunkOverrunsFile);
    }
    if id == FMT {
      if !knownSize {
        return Err(FmtUnknownSize);
      }
      if size < 16 || size > avail {
        return Err(FmtTooShort);
      }
      var f := w.pos + 8;
      w := w.(audioFormat := U16(b, f), channels := U16(b, f + 2), sampleRate := U32(b, f + 4));
      w := w.(blockAlign := U16(b, f + 12), bitsPerSample := U16(b, f + 14));
    } else if id == DATA {
      w := w.(dataStart := w.pos + 8);
      if knownSize {
        w := w.(dataLen := size, dataUnknown := false);
      } else {
        w := w.(dataLen := avail, dataUnknown := true);
      }
      w := w.(dataSeen := true);
    }
    r := Ok(w);
  }

  /** The chunk loop; `Spins` where it would repeat an iteration for ever. */
  method ScanChunks(b: Bytes) returns (r: Walked)
    ensures r == WalkChunks(b, START)
  {
    hide ReadChunk, U32;
    var w := START;
    while w.pos + 8 <= |b|
      invariant WalkChunks(b, START) == WalkChunks(b, w)
      decreases |b| - w.pos
    {
      var id, size := b[w.pos..w.pos + 4], U32(b, w.pos + 4);
      var chunk := TakeChunk(b, w);
      if chunk.Err? {
        return Rejected(chunk.error);
      }
      ReadChunkStays(b, w);
      w := chunk.value;
      if w.dataSeen && w.audioFormat != 0 {
        return Parsed(w);
      }
      if size != UNKNOWN_SIZE {
        var end := w.pos + 8 + size;
        if end > |b| {
          return Parsed(w);
        }
        w := w.(pos := end);
        if size % 2 == 1 && w.pos < |b| {
          w := w.(pos := w.pos + 1);
        }
      } else if id != DATA {
        return Rejected(UnknownSizeNonData);
      } else {
        return Spins;
      }
    }
    r := Parsed(w);
  }

  method ReadFrames(b: Bytes, dataStart: nat, frameSize: nat, frameCount: nat) returns (samples: seq<real>)
    requires 2 <= frameSize && dataStart + frameCount * frameSize <= |b|
    ensures samples == Frames(b, dataStart, frameSize, frameCount)
  {
    var out := new real[frameCount];
    for i := 0 to frameCount
      invariant forall k :: 0 <= k < i ==> out[k] == Frames(b, dataStart, frameSize, frameCount)[k]
    {
      FrameFits(dataStart, frameSize, frameCount, i);
      out[i] := Scaled(I16(U16(b, dataStart + i * frameSize)));
    }
    samples := out[..];
  }

  /** The decoder itself. `NeverReturns` stands for the loop that does not end. */
  method DecodeRiffWav(b: Bytes, monoOnly: bool) returns (r: Decoded)
    ensures r == Decode(b, monoOnly)
  {
    hide WalkChunks, Frames;
    if |b| < 44 {
      return Refused(HeaderTruncated);
    }
    if b[0..4] != RIFF || b[8..12] != WAVE {
      return Refused(MissingSignature);
    }
    var walked := ScanChunks(b);
    match walked {
      case Rejected(err) => return Refused(err);
      case Spins => return NeverReturns;
      case Parsed(w) =>
        WalkStaysInside(b, START);
        if w.audioFormat == 0 {
          return Refused(MissingFmt);
        }
        if w.dataStart == 0 {
          return Refused(MissingData);
        }
        if w.audioFormat != 1 {
          return Refused(NotPcm16);
        }
        if w.bitsPerSample != 16 {
          return Refused(BitsNot16);
        }
        if w.channels < 1 {
          return Refused(ZeroChannels);
        }
        if w.blockAlign != w.channels * w.bitsPerSample / 8 {
          return Refused(BlockAlignMismatch);
        }
        var wantEnd := w.dataStart + w.dataLen;
        if !w.dataUnknown && wantEnd > |b| {
          return Refused(DataTruncated);
        }
        if wantEnd > |b| {
          wantEnd := |b|;
        }
        var frameSize := w.channels * 2;
        if (wantEnd - w.dataStart) % frameSize != 0 {
          return Refused(NotFrameAligned);
        }
        if w.channels > 1 && monoOnly {
          return Refused(MultiChannel);
        }
        var frameCount := (wantEnd - w.dataStart) / frameSize;
        assert wantEnd - w.dataStart == frameCount * frameSize;
        var samples := ReadFrames(b, w.dataStart, frameSize, frameCount);
        r := Accepted(samples, w.sampleRate, 1);
    }
  }
}
