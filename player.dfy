/**
 * The audio engine: the transport state machine, the one-slot latch the
 * audio interrupts write, and the refill of the half of the audio buffer
 * the hardware has just finished playing.
 *
 * The hardware and codec calls (`BSP_AUDIO_OUT_*`), opening the file,
 * creating and destroying the decoder, closing the file and all logging are
 * effects outside the model; the decoder arrives as a `Flac` already created
 * over the opened file.
 */
module Player {
  import opened Common
  import opened FlacDecoder
  import opened FlacReader

  /** `AUDIO_BUFFER_SIZE`: the bytes in the double buffer. */
  const AudioBufferSize: nat := 32768

  /** The bytes in one half of the double buffer. */
  const HalfSize: nat := AudioBufferSize / 2

  datatype PlayerState = Stopped | Playing | Paused

  /**
   * The latch the audio interrupts write: which half of the buffer has just
   * been played and waits to be refilled, if any.
   */
  datatype BufferState = OffsetNone | OffsetHalf | OffsetFull

  /** A stream whose sample frames have a size: at least one channel and at least one whole byte per sample. */
  predicate HasFrameSize(meta: FlacMetaData)
  {
    meta.channels > 0 && meta.bitsPerSample >= 8
  }

  /**
   * The samples in `bytes` bytes of decoded audio, divided first by the
   * channel count and then by the bytes per sample (player.c:134). All
   * operands are unsigned, so C's division is Dafny's. Dividing twice is
   * dividing by the size of one sample frame: the result is the number of
   * whole sample frames in `bytes`.
   */
  function SamplesIn(bytes: nat, meta: FlacMetaData): (s: nat)
    requires HasFrameSize(meta)
    ensures WholeFramesIn(s, bytes, FrameBytes(meta))
  {
    WholeFrames(bytes, meta);
    Quotient(Quotient(bytes, meta.channels), meta.bitsPerSample / 8)
  }

  /** The bytes of one sample frame: one sample for each channel. */
  function FrameBytes(meta: FlacMetaData): nat
  {
    meta.channels * (meta.bitsPerSample / 8)
  }

  /** `s` frames of `frameBytes` bytes fit in `bytes`, and one more does not. */
  predicate WholeFramesIn(s: nat, bytes: nat, frameBytes: nat)
  {
    s * frameBytes <= bytes < (s + 1) * frameBytes
  }

  /**
   * Unsigned division by a positive divisor: the quotient times the divisor
   * is within one divisor below the dividend.
   */
  function Quotient(x: nat, d: nat): (q: nat)
    requires d > 0
    ensures q * d <= x < q * d + d
  {
    x / d
  }

  /** Dividing by the channel count and then by the bytes per sample counts the whole sample frames. */
  lemma WholeFrames(bytes: nat, meta: FlacMetaData)
    requires HasFrameSize(meta)
    ensures WholeFramesIn(Quotient(Quotient(bytes, meta.channels), meta.bitsPerSample / 8), bytes, FrameBytes(meta))
  {
    var b, c := meta.channels, meta.bitsPerSample / 8;
    var q := Quotient(bytes, b);
    var s := Quotient(q, c);
    MulLeq(s * c, q, b);
    MulLeq(q + 1, s * c + c, b);
    Regroup(s, b, c);
  }

  lemma MulLeq(x: nat, y: nat, k: nat)
    requires x <= y
    ensures x * k <= y * k
  {
  }

  lemma Regroup(s: nat, b: nat, c: nat)
    ensures s * c * b == s * (b * c) && (s * c + c) * b == (s + 1) * (b * c)
  {
  }

  /**
   * The playing progress as a fraction of the track (player.c:144-153): 0
   * for a track of unknown length, else the samples played over the total,
   * capped at 1. Floating-point rounding is not modelled.
   */
  function PlayingProgress(samplesPlayed: nat, totalSamples: nat): (r: real)
    ensures 0.0 <= r <= 1.0
    ensures totalSamples == 0 ==> r == 0.0
    ensures totalSamples > 0 && samplesPlayed >= totalSamples ==> r == 1.0
    ensures totalSamples > 0 && samplesPlayed < totalSamples ==> r == samplesPlayed as real / totalSamples as real
  {
    if totalSamples == 0 then 0.0
    else
      var progress := samplesPlayed as real / totalSamples as real;
      if progress > 1.0 then 1.0 else progress
  }

  /** More samples played never means less progress. */
  lemma ProgressMonotone(a: nat, b: nat, totalSamples: nat)
    requires a <= b
    ensures PlayingProgress(a, totalSamples) <= PlayingProgress(b, totalSamples)
  {
    if totalSamples > 0 {
      var t := totalSamples as real;
      assert a as real / t <= b as real / t by {
        assert a as real <= b as real;
        DivLeq(a as real, b as real, t);
      }
    }
  }

  lemma DivLeq(x: real, y: real, t: real)
    requires x <= y && t > 0.0
    ensures x / t <= y / t
  {
    assert y / t - x / t == (y - x) / t;
  }

  /**
   * The audio engine's module state (player.c:5-15): the double buffer, the
   * latch, the transport state, the samples played, the stream's metadata
   * and the stream reader of the track being played.
   */
  class Player {
    const audioBuffer: array<byte>
    var bufferState: BufferState
    var state: PlayerState
    var samplesPlayed: nat
    var metadata: FlacMetaData
    var reader: FlacReader?

    /** The objects the player's reads and writes go through. */
    ghost function Repr(): set<object>
      reads this
    {
      {this, audioBuffer} + (if reader == null then {} else {reader as object, reader.flac as object})
    }

    /**
     * The buffer has its fixed size; a stopped player has played nothing and
     * holds no reader; a started one holds a valid reader.
     */
    ghost predicate Valid()
      reads this, reader
    {
      && audioBuffer.Length == AudioBufferSize
      && (state == Stopped ==> samplesPlayed == 0 && reader == null)
      && (state != Stopped ==> reader != null && reader.Valid())
    }

    /** The bytes the reader will still deliver; none when there is no reader. */
    ghost function Pending(): seq<byte>
      reads this, reader, if reader == null then {} else {reader.flac}
      requires Valid()
    {
      if reader == null then [] else reader.Pending()
    }

    /** The statics as the program starts: zeroed buffer and metadata, no reader, stopped. */
    constructor ()
      ensures Valid() && fresh(audioBuffer)
      ensures state == Stopped && bufferState == OffsetNone && samplesPlayed == 0
      ensures metadata == FlacMetaData(0, 0, 0, 0) && reader == null
      ensures audioBuffer[..] == seq(AudioBufferSize, _ => 0)
    {
      audioBuffer := new byte[AudioBufferSize](_ => 0);
      bufferState := OffsetNone;
      state := Stopped;
      samplesPlayed := 0;
      metadata := FlacMetaData(0, 0, 0, 0);
      reader := null;
    }

    /** The half-transfer interrupt: the first half has been played (player.c:17-22). */
    method HalfTransferCallback()
      modifies this`bufferState
      ensures bufferState == OffsetHalf
    {
      bufferState := OffsetHalf;
    }

    /** The transfer-complete interrupt: the second half has been played (player.c:24-29). */
    method TransferCompleteCallback()
      modifies this`bufferState
      ensures bufferState == OffsetFull
    {
      bufferState := OffsetFull;
    }

    /**
     * Starts playing the stream `flac` decodes (player.c:41-76). The state
     * becomes PLAYING before anything can fail, so a metadata failure leaves
     * the player PLAYING with nothing buffered. Otherwise only the first
     * half of the buffer is filled; a short fill stops the player, a full
     * one sets the latch to the first half and starts the output. The
     * reader starts from an empty frame, so its first read fetches the
     * decoder's first frame.
     */
    method Start(flac: Flac)
      requires Valid() && state == Stopped
      modifies this, audioBuffer, flac
      ensures Valid()
      ensures reader != null ==> fresh(reader) && reader.flac == flac
      ensures flac.metadata.None? ==>
        && state == Playing && reader != null
        && Pending() == old(Concat(flac.frames))
        && audioBuffer[..] == old(audioBuffer[..])
        && bufferState == old(bufferState) && samplesPlayed == 0 && metadata == old(metadata)
      ensures flac.metadata.Some? ==>
        var stream := old(Concat(flac.frames));
        var n := Min(HalfSize, |stream|);
        && metadata == flac.metadata.value
        && audioBuffer[..] == Splice(old(audioBuffer[..]), 0, stream[..n])
        && samplesPlayed == 0
        && (n < HalfSize ==> state == Stopped && bufferState == old(bufferState))
        && (n == HalfSize ==> state == Playing && bufferState == OffsetHalf && Pending() == stream[n..])
    {
      state := Playing;
      var r := new FlacReader(flac, EmptyFrame);
      reader := r;
      assert r.Pending() == Concat(flac.frames);
      if flac.metadata.None? {
        return;
      }
      metadata := flac.metadata.value;
      var bytesToRead := HalfSize;
      var bytesRead := r.ReadFlac(audioBuffer, 0, bytesToRead);
      if bytesRead < bytesToRead {
        Stop();
        return;
      }
      bufferState := OffsetHalf;
    }

    /** Pauses the output (player.c:78-85). */
    method Pause()
      requires Valid() && state == Playing
      modifies this`state
      ensures Valid() && state == Paused
    {
      state := Paused;
    }

    /** Resumes the output (player.c:87-94). */
    method Resume()
      requires Valid() && state == Paused
      modifies this`state
      ensures Valid() && state == Playing
    {
      state := Playing;
    }

    /**
     * Stops the output and releases the reader (player.c:96-114). The buffer
     * and the latch are left as they are.
     */
    method Stop()
      requires Valid() && (state == Playing || state == Paused)
      modifies this`state, this`samplesPlayed, this`reader
      ensures Valid()
      ensures state == Stopped && samplesPlayed == 0 && reader == null
    {
      state := Stopped;
      reader.Free();
      reader := null;
      samplesPlayed := 0;
    }

    /** Takes the latch's value and clears it (player.c:116-120). */
    method GetBufferState() returns (s: BufferState)
      modifies this`bufferState
      ensures s == old(bufferState) && bufferState == OffsetNone
    {
      s := bufferState;
      bufferState := OffsetNone;
    }

    /**
     * One step of the control loop (player.c:122-142). Unless the player is
     * PLAYING nothing happens and the latch is kept. Otherwise the latch is
     * taken; if it names a half, that half is refilled from the reader and
     * the samples in the bytes read are added to the count; a short read
     * means the stream ended and stops the player.
     */
    method Update()
      requires Valid()
      requires state == Playing && bufferState != OffsetNone ==> HasFrameSize(metadata)
      modifies this, audioBuffer, Repr()
      ensures Valid()
      ensures old(state) != Playing ==> unchanged(this) && audioBuffer[..] == old(audioBuffer[..]) && Pending() == old(Pending())
      ensures old(state) == Playing && old(bufferState) == OffsetNone ==>
        unchanged(this) && audioBuffer[..] == old(audioBuffer[..]) && Pending() == old(Pending())
      ensures old(state) == Playing && old(bufferState) != OffsetNone ==>
        var offset := if old(bufferState) == OffsetHalf then 0 else HalfSize;
        var n := Min(HalfSize, |old(Pending())|);
        && bufferState == OffsetNone && metadata == old(metadata)
        && audioBuffer[..] == Splice(old(audioBuffer[..]), offset, old(Pending())[..n])
        && (n < HalfSize ==> state == Stopped && samplesPlayed == 0)
        && (n == HalfSize ==> && state == Playing && reader == old(reader)
                              && samplesPlayed == old(samplesPlayed) + SamplesIn(HalfSize, metadata)
                              && Pending() == old(Pending())[n..])
    {
      if state == Playing {
        var s := GetBufferState();
        if s != OffsetNone {
          var offset: nat;
          if s == OffsetHalf {
            offset := 0;
          } else {
            offset := AudioBufferSize / 2;
          }
          var bytesRead := reader.ReadFlac(audioBuffer, offset, AudioBufferSize / 2);
          samplesPlayed := samplesPlayed + SamplesIn(bytesRead, metadata);
          if bytesRead < AudioBufferSize / 2 {
            Stop();
          }
        }
      }
    }
  }
}
