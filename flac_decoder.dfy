/**
 * The external FLAC decoder as the stream reader and the player see it: the
 * stream's metadata and the sequence of decoded frames it will still hand
 * out. How frames are decoded from the file is not modelled.
 */
module FlacDecoder {
  import opened Common

  /** Stream information read from the FLAC header. */
  datatype FlacMetaData = FlacMetaData(totalSamples: nat, bitsPerSample: nat, sampleRate: nat, channels: nat)

  /** One decoded frame: a sample count and its PCM bytes; the frame's size is the length of its buffer. */
  datatype FlacFrame = FlacFrame(samples: int, buffer: seq<byte>)
  {
    function Size(): nat { |buffer| }
  }

  /** A frame that holds no data. */
  const EmptyFrame: FlacFrame := FlacFrame(0, [])

  /** The bytes of a sequence of frames, one frame after the other. */
  function Concat(frames: seq<FlacFrame>): seq<byte>
  {
    if frames == [] then [] else frames[0].buffer + Concat(frames[1..])
  }

  /**
   * An open decoder. `frames` are the frames it will still deliver; running
   * out of frames stands for both the end of the stream and a decoding error,
   * which its caller cannot tell apart. `metadata` is None when the header
   * cannot be read.
   */
  class Flac {
    var frames: seq<FlacFrame>
    const metadata: Option<FlacMetaData>

    constructor (frames: seq<FlacFrame>, metadata: Option<FlacMetaData>)
      ensures this.frames == frames && this.metadata == metadata
    {
      this.frames := frames;
      this.metadata := metadata;
    }

    /** Decodes the next frame; false when there is none. */
    method ReadFrame() returns (ok: bool, frame: FlacFrame)
      modifies this
      ensures ok <==> old(frames) != []
      ensures ok ==> frame == old(frames)[0] && frames == old(frames)[1..]
      ensures !ok ==> frames == old(frames)
    {
      if frames == [] {
        ok, frame := false, EmptyFrame;
      } else {
        ok, frame := true, frames[0];
        frames := frames[1..];
      }
    }
  }
}
