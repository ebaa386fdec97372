/**
 * The stream reader: turns the decoder's frames into a pull interface that
 * fills a caller's buffer with any number of bytes, carrying a partly
 * consumed frame from one call to the next.
 */
module FlacReader {
  import opened Common
  import opened FlacDecoder

  /**
   * A read of `a` bytes followed by a read of `b` bytes delivers the same
   * bytes, in the same order, and leaves the same rest as one read of
   * `a + b` bytes (the contract of `FlacReader.ReadFlac` applied twice):
   * how the stream is cut into reads does not matter.
   */
  lemma ReadsCompose(pending: seq<byte>, a: nat, b: nat)
    ensures var n := Min(a, |pending|);
            var m := Min(b, |pending[n..]|);
            && n + m == Min(a + b, |pending|)
            && pending[..n] + pending[n..][..m] == pending[..n + m]
            && pending[n..][m..] == pending[n + m..]
  {
    var n := Min(a, |pending|);
    var m := Min(b, |pending[n..]|);
    assert pending[..n] + pending[n..][..m] == pending[..n + m];
  }

  /**
   * The first `n` bytes of `chunk` written out again and again: `chunk`,
   * `chunk`, ..., ending with whatever part of `chunk` still fits.
   */
  function Repeat(chunk: seq<byte>, n: nat): (r: seq<byte>)
    requires |chunk| > 0
    ensures |r| == n
    decreases n
  {
    if n <= |chunk| then chunk[..n] else chunk + Repeat(chunk, n - |chunk|)
  }

  /** `k` whole copies of `chunk`, one after the other. */
  function Copies(chunk: seq<byte>, k: nat): (r: seq<byte>)
  {
    if k == 0 then [] else chunk + Copies(chunk, k - 1)
  }

  /** One more copy may be added at either end. */
  lemma {:induction false} CopiesSnoc(chunk: seq<byte>, k: nat)
    ensures Copies(chunk, k) + chunk == Copies(chunk, k + 1)
  {
    if k > 0 {
      CopiesSnoc(chunk, k - 1);
    }
  }

  /**
   * After `k` whole copies of `chunk`, a repetition continues with the
   * leading part of `chunk`.
   */
  lemma {:induction false} RepeatAfterCopies(chunk: seq<byte>, k: nat, c: nat)
    requires 0 < |chunk| && c <= |chunk|
    ensures Repeat(chunk, |Copies(chunk, k)| + c) == Copies(chunk, k) + chunk[..c]
  {
    if k > 0 {
      RepeatAfterCopies(chunk, k - 1, c);
      if k == 1 && c == 0 {
        assert Copies(chunk, 1) == chunk;
      }
    }
  }

  /**
   * One chunk of the loop as written extends the repetition by the leading
   * part of `chunk`; unless it is the last chunk, it is a whole copy.
   */
  lemma RepeatStep(chunk: seq<byte>, copies: nat, done: nat, c: nat, size: nat)
    requires 0 < |chunk| && done < size
    requires Repeat(chunk, done) == Copies(chunk, copies)
    requires c == Min(|chunk|, size - done)
    ensures Repeat(chunk, done + c) == Repeat(chunk, done) + chunk[..c]
    ensures done + c < size ==> Repeat(chunk, done + c) == Copies(chunk, copies + 1)
  {
    RepeatAfterCopies(chunk, copies, c);
    RepeatAfterCopies(chunk, copies, 0);
    CopiesSnoc(chunk, copies);
  }

  /** The length of the chunk the read loop copies next (flac_reader.c:33-36). */
  function ChunkSize(frameSize: nat, bufferIndex: nat, size: nat, bytesRead: nat): (c: nat)
    requires bufferIndex <= frameSize && bytesRead <= size
    ensures c <= frameSize - bufferIndex && c <= size - bytesRead
    ensures c == frameSize - bufferIndex || c == size - bytesRead
  {
    Min(frameSize - bufferIndex, size - bytesRead)
  }

  /**
   * Copies `src` into `dst` starting at index `at`, leaving the rest of `dst`
   * as it was (the `memcpy` of flac_reader.c:40).
   */
  method CopyInto(dst: array<byte>, at: nat, src: seq<byte>)
    requires at + |src| <= dst.Length
    modifies dst
    ensures dst[..] == Splice(old(dst[..]), at, src)
  {
    forall k | 0 <= k < |src| {
      dst[at + k] := src[k];
    }
    assert dst[..] == Splice(old(dst[..]), at, src);
  }

  /**
   * The reader's heap record (flac_reader.c:6-9): the decoder it pulls
   * frames from, the current frame, and the read position in that frame.
   */
  class FlacReader {
    const flac: Flac
    var frame: FlacFrame
    var bufferIndex: nat

    /** The read position never passes the end of the current frame. */
    ghost predicate Valid()
      reads this
    {
      bufferIndex <= frame.Size()
    }

    /** The bytes the reader has still to deliver: the unread rest of the current frame, then every frame the decoder has left. */
    ghost function Pending(): seq<byte>
      reads this, flac
      requires Valid()
    {
      frame.buffer[bufferIndex..] + Concat(flac.frames)
    }

    /**
     * Creates a reader over `flac`. `initial` stands for whatever the freshly
     * allocated frame holds: the source never initialises it.
     */
    constructor (flac: Flac, initial: FlacFrame)
      ensures this.flac == flac && frame == initial && bufferIndex == 0
      ensures Valid()
    {
      this.flac := flac;
      frame := initial;
      bufferIndex := 0;
    }

    /** Releases the reader. Memory is not modelled, so what it would still deliver is unchanged. */
    method Free()
      requires Valid()
      ensures Valid() && Pending() == old(Pending())
    {
    }

    /**
     * The read loop exactly as written. The frame pointer is never NULL, so
     * the branch that fetches a frame never runs, and `buffer_index` is
     * never advanced after a copy: every chunk is the same leading part of
     * the current frame. The loop ends only if that part is non-empty.
     */
    method ReadFlacAsWritten(buffer: array<byte>, offset: nat, size: nat) returns (bytesRead: nat)
      requires Valid()
      requires bufferIndex < frame.Size()
      requires offset + size <= buffer.Length
      modifies buffer
      ensures bytesRead == size
      ensures buffer[..] == Splice(old(buffer[..]), offset, Repeat(frame.buffer[bufferIndex..], size))
    {
      ghost var chunk, out := frame.buffer[bufferIndex..], buffer[..];
      ghost var copies := 0;
      bytesRead := 0;
      while bytesRead < size
        invariant bytesRead <= size
        invariant bytesRead < size ==> Repeat(chunk, bytesRead) == Copies(chunk, copies)
        invariant buffer[..] == Splice(out, offset, Repeat(chunk, bytesRead))
      {
        var toRead := CopyHead(buffer, offset + bytesRead, size - bytesRead);
        assert frame.buffer[bufferIndex..] == chunk;
        RepeatStep(chunk, copies, bytesRead, toRead, size);
        SpliceAppend(out, offset, Repeat(chunk, bytesRead), chunk[..toRead]);
        bytesRead, copies := bytesRead + toRead, copies + 1;
      }
      assert frame.buffer[bufferIndex..] == chunk;
    }

    /**
     * One pass of the loop body as written (flac_reader.c:33-41): copies the
     * unread part of the current frame, at most `max` bytes of it, to
     * `buffer[at..]` and leaves the read position where it was.
     */
    method CopyHead(buffer: array<byte>, at: nat, max: nat) returns (n: nat)
      requires Valid()
      requires at + max <= buffer.Length
      modifies buffer
      ensures n == Min(frame.Size() - bufferIndex, max)
      ensures buffer[..] == Splice(old(buffer[..]), at, frame.buffer[bufferIndex..][..n])
    {
      n := ChunkSize(frame.Size(), bufferIndex, max, 0);
      CopyInto(buffer, at, frame.buffer[bufferIndex..bufferIndex + n]);
      assert frame.buffer[bufferIndex..bufferIndex + n] == frame.buffer[bufferIndex..][..n];
    }

    /**
     * Copies the next chunk of the current frame, at most `max` bytes, to
     * `buffer[at..]` and moves the read position past it (one pass of the
     * loop body of flac_reader.c:33-41 with the position advanced).
     */
    method CopyChunk(buffer: array<byte>, at: nat, max: nat) returns (n: nat)
      requires Valid()
      requires at + max <= buffer.Length
      modifies this`bufferIndex, buffer
      ensures Valid() && frame == old(frame)
      ensures n == Min(frame.Size() - old(bufferIndex), max)
      ensures bufferIndex == old(bufferIndex) + n
      ensures buffer[..] == Splice(old(buffer[..]), at, frame.buffer[old(bufferIndex)..bufferIndex])
      ensures old(Pending()) == frame.buffer[old(bufferIndex)..bufferIndex] + Pending()
    {
      n := ChunkSize(frame.Size(), bufferIndex, max, 0);
      var piece := frame.buffer[bufferIndex..bufferIndex + n];
      CopyInto(buffer, at, piece);
      assert frame.buffer[bufferIndex..] == piece + frame.buffer[bufferIndex + n..];
      bufferIndex := bufferIndex + n;
    }

    /**
     * Makes a frame with unread bytes current if the current one is used up
     * and the decoder has another (flac_reader.c:25-31, entered when the
     * frame is used up rather than when it is NULL).
     */
    method Refill() returns (ok: bool)
      requires Valid()
      modifies this, flac
      ensures Valid() && Pending() == old(Pending())
      ensures ok <==> old(bufferIndex < frame.Size() || flac.frames != [])
      ensures !ok ==> Pending() == [] && flac.frames == old(flac.frames)
      ensures ok ==> (bufferIndex < frame.Size() && flac.frames == old(flac.frames)) || |flac.frames| < old(|flac.frames|)
      ensures old(bufferIndex < frame.Size()) ==> ok && unchanged(this) && flac.frames == old(flac.frames)
      ensures ok && old(bufferIndex == frame.Size()) ==>
        frame == old(flac.frames)[0] && bufferIndex == 0 && flac.frames == old(flac.frames)[1..]
    {
      if bufferIndex < frame.Size() {
        return true;
      }
      ghost var before := Pending();
      var next: FlacFrame;
      ok, next := flac.ReadFrame();
      if ok {
        frame, bufferIndex := next, 0;
        assert Pending() == before;
      }
    }

    /**
     * The read loop with the evident repair: each copy advances
     * `buffer_index`, and a new frame is fetched exactly when the current one
     * is used up. The caller's buffer receives the next `size` pending bytes,
     * or all of them when the decoder runs out first.
     */
    method ReadFlac(buffer: array<byte>, offset: nat, size: nat) returns (bytesRead: nat)
      requires Valid()
      requires offset + size <= buffer.Length
      modifies this, flac, buffer
      ensures Valid()
      ensures bytesRead == Min(size, |old(Pending())|)
      ensures buffer[..] == Splice(old(buffer[..]), offset, old(Pending())[..bytesRead])
      ensures Pending() == old(Pending())[bytesRead..]
    {
      ghost var stream, out := Pending(), buffer[..];
      bytesRead := 0;
      while bytesRead < size
        invariant Valid()
        invariant bytesRead <= size && bytesRead <= |stream|
        invariant Pending() == stream[bytesRead..]
        invariant buffer[..] == Splice(out, offset, stream[..bytesRead])
        decreases size - bytesRead, |flac.frames|
      {
        var ok, n := Step(buffer, offset, bytesRead, size - bytesRead, stream, out);
        if !ok {
          break;
        }
        bytesRead := bytesRead + n;
      }
    }

    /**
     * One pass of the repaired loop body: fetches a frame if the current one
     * is used up, then copies the next chunk of at most `max` bytes to
     * `buffer[offset + done..]`. `stream` and `out` are what was pending and
     * what the buffer held when the read began, `done` the bytes delivered
     * so far. `ok` is false when a frame was needed and the decoder had none.
     */
    method Step(buffer: array<byte>, offset: nat, done: nat, max: nat, ghost stream: seq<byte>, ghost out: seq<byte>)
      returns (ok: bool, n: nat)
      requires Valid()
      requires done <= |stream| && Pending() == stream[done..]
      requires offset + done + max <= buffer.Length && |out| == buffer.Length && max > 0
      requires buffer[..] == Splice(out, offset, stream[..done])
      modifies this, flac, buffer
      ensures Valid()
      ensures n <= max && done + n <= |stream|
      ensures Pending() == stream[done + n..]
      ensures buffer[..] == Splice(out, offset, stream[..done + n])
      ensures !ok ==> n == 0 && Pending() == []
      ensures ok ==> n > 0 || |flac.frames| < old(|flac.frames|)
      ensures |flac.frames| <= old(|flac.frames|)
    {
      ok := Refill();
      if !ok {
        return ok, 0;
      }
      ghost var before, from := Pending(), bufferIndex;
      n := CopyChunk(buffer, offset + done, max);
      assert stream[done..][..n] == frame.buffer[from..bufferIndex];
      ReadAdvances(out, offset, stream, done, n);
    }
  }

  /** `s` with the bytes from index `at` on overwritten by `piece`. */
  function Splice(s: seq<byte>, at: nat, piece: seq<byte>): (r: seq<byte>)
    requires at + |piece| <= |s|
    ensures |r| == |s|
  {
    seq(|s|, k requires 0 <= k < |s| => if at <= k < at + |piece| then piece[k - at] else s[k])
  }

  /** Two splices side by side are one splice of both pieces. */
  lemma SpliceAppend(s: seq<byte>, at: nat, x: seq<byte>, y: seq<byte>)
    requires at + |x| + |y| <= |s|
    ensures Splice(Splice(s, at, x), at + |x|, y) == Splice(s, at, x + y)
  {
  }

  /**
   * Delivering the next `n` bytes of `stream` after the first `done` ones
   * leaves the first `done + n` delivered.
   */
  lemma ReadAdvances(out: seq<byte>, offset: nat, stream: seq<byte>, done: nat, n: nat)
    requires done + n <= |stream| && offset + done + n <= |out|
    ensures stream[done..][n..] == stream[done + n..]
    ensures Splice(Splice(out, offset, stream[..done]), offset + done, stream[done..][..n]) == Splice(out, offset, stream[..done + n])
  {
    SpliceAppend(out, offset, stream[..done], stream[done..][..n]);
    assert stream[..done] + stream[done..][..n] == stream[..done + n];
  }

  /**
   * The read as written repeats a frame instead of moving on: when the current
   * frame holds [1, 2], the 4 bytes the loop delivers are [1, 2, 1, 2],
   * whereas the stream, with a next frame [3, 4], continues [1, 2, 3, 4].
   */
  lemma AsWrittenRepeatsFrame()
    ensures Repeat([1, 2], 4) == [1, 2, 1, 2]
    ensures var pending := [1, 2] + Concat([FlacFrame(1, [3, 4])]);
            pending[..Min(4, |pending|)] == [1, 2, 3, 4]
  {
    assert Concat([FlacFrame(1, [3, 4])]) == [3, 4] + Concat([]);
  }

  /**
   * With the read position at the end of the current frame every chunk of
   * the loop as written is empty, so `bytes_read` never grows and a request
   * for at least one byte never returns.
   */
  lemma AsWrittenStallsAtFrameEnd(frameSize: nat, size: nat, bytesRead: nat)
    requires bytesRead < size
    ensures ChunkSize(frameSize, frameSize, size, bytesRead) == 0
  {
  }
}
