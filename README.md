# stm32-flac-player core, modelled in Dafny

This project models the playback core of a FLAC player for the STM32F746G
Discovery board and proves properties of that model. The core has four parts:

- **The audio engine** (`Player`, from player.c). It keeps the transport state
  (STOPPED, PLAYING, PAUSED) and a one-slot latch. The two audio interrupts
  overwrite the latch to say which half of the 32768-byte double buffer has
  just been played. On every control-loop step, `update_player` takes the
  latch, refills that half from the stream reader, counts the samples played
  and stops the player when the stream runs short. The playing progress is the
  ratio of samples played to the track's total, capped at 1.
- **The stream reader** (`FlacReader`, from flac_reader.c). It turns the
  decoder's frames into a pull interface: `read_flac` copies up to `size`
  bytes into the caller's buffer, chunk by chunk. The loop as written never
  advances its read position and never fetches a frame. It is modelled as it
  stands (`ReadFlacAsWritten`) and with the evident repair (`ReadFlac`), which
  the player uses; see Findings.
- **The FLAC file scan** (`Files`, from files.c). `find_FLAC_files` walks the
  SD card recursively and stores `dir/name` for every archived file whose name
  ends in `.flac`, into a list of 25 slots. The card is a map from a directory
  path to the entries that reading it yields, and whether the read after the
  last entry fails. Every call, including the one for a subdirectory, first
  resets the list's count to 0. A subdirectory is opened under its bare name.
  Both behaviours are modelled as written; `SubdirectoryRestartsList` shows
  their effect on a two-directory card.
- **Screen geometry** (`Display`, from display.c):
  - the percentage-to-pixel macros on the 480×272 panel;
  - `transform_points`, which finds an icon's bounding box and moves every
    point by the centre less half the box;
  - the strict-rectangle touch test of a button;
  - the `current_layer` flip of the double-buffered layer swap.

The decoder itself is outside the model. It appears as a `Flac` object that
holds its metadata (None when the header cannot be read) and the frames it will
still deliver. Running out of frames stands for both the end of the stream and a
decoding error, because the reader cannot tell them apart either.

C's `int` division truncates toward zero, and it is modelled by `Common.CDiv`
wherever a signed value is divided. Unsigned divisions and the divisions of
non-negative widths use Dafny's `/`. The panel size 480×272
(`RK043FN48H_WIDTH`/`RK043FN48H_HEIGHT`) comes from a board header that is not
part of this model, and is written in as constants.

## Model

| member | source | states |
|---|---|---|
| Common.CDiv | Lib/Player/Src/display.c:13-14 | C's signed division truncates toward zero; for a non-negative dividend it is the floor quotient |
| FlacDecoder.Flac.constructor | Lib/Player/Src/player.c:50-55 | a decoder over an opened file holds the frames it will deliver and the header's metadata, or None when the header cannot be read |
| FlacDecoder.Flac.ReadFrame | Lib/Player/Src/flac_reader.c:27-29 | succeeds exactly when a frame is left, and then hands out the first frame and removes it; on failure the decoder is unchanged |
| FlacReader.ChunkSize | Lib/Player/Src/flac_reader.c:33-36 | a chunk is at most the unread rest of the frame and at most the bytes still requested, and equals one of the two |
| FlacReader.CopyInto | Lib/Player/Src/flac_reader.c:40 | the `memcpy` writes the chunk at the given index of the buffer and leaves every other byte of the buffer as it was |
| FlacReader.FlacReader.constructor | Lib/Player/Src/flac_reader.c:4-11 | a new reader holds the given decoder and frame, with its read position at 0 |
| FlacReader.FlacReader.Free | Lib/Player/Src/flac_reader.c:13-16 | releasing the reader changes nothing the model observes |
| FlacReader.FlacReader.ReadFlacAsWritten | Lib/Player/Src/flac_reader.c:18-44 | the loop as written returns exactly `size` and fills `buffer[offset..offset+size)` with the unread part of the current frame repeated over and over; the rest of the buffer is untouched; it terminates only when that part is non-empty |
| FlacReader.FlacReader.CopyHead | Lib/Player/Src/flac_reader.c:33-41 | one pass of the loop as written copies the leading `min(unread, max)` bytes of the frame and leaves the read position where it was |
| FlacReader.AsWrittenRepeatsFrame | Lib/Player/Src/flac_reader.c:33-41 | for a frame [1,2] followed by a frame [3,4], a 4-byte read as written gives [1,2,1,2] where the stream continues [1,2,3,4] |
| FlacReader.AsWrittenStallsAtFrameEnd | Lib/Player/Src/flac_reader.c:22-41 | with the read position at the end of the frame every chunk is empty, so `bytes_read` never reaches `size` |
| FlacReader.FlacReader.CopyChunk | Lib/Player/Src/flac_reader.c:33-41 | one repaired pass copies the next `min(unread, max)` bytes of the frame, advances the read position by that much, and removes exactly those bytes from what is pending |
| FlacReader.FlacReader.Refill | Lib/Player/Src/flac_reader.c:25-31 | while the current frame has unread bytes nothing changes; once it is used up, the decoder's next frame becomes current with the read position reset to 0; pending bytes are unchanged; failure happens only when nothing is pending and leaves the decoder alone |
| FlacReader.FlacReader.Step | Lib/Player/Src/flac_reader.c:22-42 | one repaired pass delivers the next pending bytes, at most the bytes still requested, right after those delivered so far; it fails, delivering nothing, only when nothing is pending; a success that delivers nothing has fetched an empty frame and so shortened the decoder's frames |
| FlacReader.FlacReader.ReadFlac | Lib/Player/Src/flac_reader.c:18-44 | the repaired read returns `min(size, pending)` and never more than `size`; it writes exactly the next that-many pending bytes to `buffer[offset..)` in stream order, leaves the rest of the buffer alone, and consumes them; it falls short only when the decoder runs out |
| FlacReader.ReadsCompose | Lib/Player/Src/flac_reader.c:18-44 | two consecutive repaired reads of `a` and `b` bytes deliver the same bytes and leave the same rest as one read of `a+b` |
| Player.SamplesIn | Lib/Player/Src/player.c:134 | the samples in the bytes read, divided by the channel count and then by the bytes per sample, are the whole sample frames in them: that many frames fit and one more does not |
| Player.Quotient | Lib/Player/Src/player.c:134 | C's unsigned division: the quotient times the divisor is within one divisor below the dividend |
| Player.PlayingProgress | Lib/Player/Src/player.c:144-153 | the progress is 0 for a track of unknown length, else samples played over total samples capped at 1, and always lies in [0,1] |
| Player.ProgressMonotone | Lib/Player/Src/player.c:144-153 | playing more samples never lowers the progress |
| Player.Player.constructor | Lib/Player/Src/player.c:5-15 | the statics start STOPPED with an empty latch, no samples played and a zeroed 32768-byte buffer |
| Player.Player.HalfTransferCallback | Lib/Player/Src/player.c:17-22 | the half-transfer interrupt sets the latch to HALF, overwriting any value not yet taken |
| Player.Player.TransferCompleteCallback | Lib/Player/Src/player.c:24-29 | the transfer-complete interrupt sets the latch to FULL, overwriting any value not yet taken |
| Player.Player.Start | Lib/Player/Src/player.c:41-76 | needs STOPPED and sets PLAYING before anything can fail; a metadata failure returns still PLAYING with the buffer untouched; otherwise exactly the first 16384 bytes are filled with the stream's start; a short read ends STOPPED; a full one ends PLAYING with the latch at HALF |
| Player.Player.Pause | Lib/Player/Src/player.c:78-85 | needs PLAYING, ends PAUSED, changes nothing else |
| Player.Player.Resume | Lib/Player/Src/player.c:87-94 | needs PAUSED, ends PLAYING, changes nothing else |
| Player.Player.Stop | Lib/Player/Src/player.c:96-114 | needs PLAYING or PAUSED; ends STOPPED with no samples played and the reader released; the buffer and latch stay |
| Player.Player.GetBufferState | Lib/Player/Src/player.c:116-120 | returns the latch's previous value and leaves it NONE |
| Player.Player.Update | Lib/Player/Src/player.c:122-142 | does nothing, not even clearing the latch or consuming stream bytes, unless PLAYING; a NONE latch only stays NONE; HALF refills bytes [0,16384) and FULL refills [16384,32768) with the next pending bytes and leaves the other half alone; the sample count grows by the samples in a full half; a short read stops the player |
| Files.LastIndexOf | Lib/Player/Src/files.c:34 | `strrchr`: the index of the last occurrence of the character, or None when it does not occur |
| Files.HasFlacExtension | Lib/Player/Src/files.c:34-37 | the test on the part from the last `.` accepts a name exactly when it ends in `.flac`, compared case-sensitively |
| Files.Collected | Lib/Player/Src/files.c:27-37 | an entry is stored exactly when it is not a directory, has the archive bit and its name ends in `.flac` |
| Files.FlacExtensionExamples | Lib/Player/Src/files.c:34-37 | `track`, `TRACK.FLAC` and `track.flac.bak` are rejected and `track.flac` is accepted |
| Files.JoinPath | Lib/Player/Src/files.c:40-42 | the stored path is the directory, then `/`, then the entry's name |
| Files.Scan | Lib/Player/Src/files.c:6-14 | a scan resets the count to 0; a directory that cannot be opened gives 1 and leaves the slots alone; the result code is 0 or 1 and the count never exceeds 25 |
| Files.ScanFrom | Lib/Player/Src/files.c:16-53 | the entry loop keeps the count at most 25 and returns 0 or 1 |
| Files.ScanStoresOnlyFlacFiles | Lib/Player/Src/files.c:6-54 | every path a scan leaves in the list is `d/n` for an archived, non-directory `.flac` entry `n` of some directory `d` of the card |
| Files.ScanFromStoresOnlyFlacFiles | Lib/Player/Src/files.c:16-46 | the entry loop stores only such paths, whatever its subdirectory scans leave behind |
| Files.StoreFound | Lib/Player/Src/files.c:40-43 | storing an accepted entry's path at index `count` keeps every stored path a found one |
| Files.FlatScan | Lib/Player/Src/files.c:6-53 | for a directory without subdirectories or empty names, the list gets its `.flac` paths in directory order from slot 0, up to 25; the other slots are unchanged; the result is 1 exactly when the read fails before the list is full |
| Files.FlatScanFrom | Lib/Player/Src/files.c:16-46 | the same from any entry and count: each accepted entry is stored at index `count` and the count grows by exactly one |
| Files.FlatStepCollected | Lib/Player/Src/files.c:32-43 | an accepted entry takes the next slot and the scan goes on after it |
| Files.FlatStepSkipped | Lib/Player/Src/files.c:31-37 | a rejected file leaves the list unchanged |
| Files.SubdirectoryRestartsList | Lib/Player/Src/files.c:8-30 | on a card where `a.flac` is followed by directory `d` holding `b.flac`, the scan ends with the single path `d/b.flac`, because the subdirectory's scan restarts the list |
| Files.FileList.constructor | Lib/Player/Inc/files.h:11-14 | the static list starts with 25 empty slots and count 0 |
| Files.FindFlacFiles | Lib/Player/Src/files.c:6-54 | the recursive scan returns the code and leaves exactly the slots and count the scan's definition gives: reset to 0, 1 on an open or read failure or a failing subdirectory, stop at 25 or at an empty name, store `dir/name` for accepted entries |
| Display.VwToPx | Lib/Player/Src/display.c:13 | a percentage of the width in pixels: for a non-negative percentage, the largest pixel count not above that share of 480 |
| Display.VhToPx | Lib/Player/Src/display.c:14 | the same for the height of 272 |
| Display.ViewportScaling | Lib/Player/Src/display.c:13-14 | for percentages in [0,100] the pixels lie in [0,480] and [0,272], 0 and 100 map to the edges, and the scaling is monotone |
| Display.BackButton | Lib/Player/Src/display.c:31-35 | the back button is centred at (20vw, 80vh) with a 30×30 touch area |
| Display.NextButton | Lib/Player/Src/display.c:44-48 | the next button is centred at (80vw, 80vh) with a 30×30 touch area |
| Display.PlayButton | Lib/Player/Src/display.c:58-62 | the play button is centred at (50vw, 80vh) with a 30×30 touch area |
| Display.IsButtonTouched | Lib/Player/Src/display.c:173-178 | a button is touched exactly when the first touch point is less than half the touch area, halved as C does, from the centre on both axes |
| Display.TouchedExcludesEdges | Lib/Player/Src/display.c:173-178 | points on the edge of the touch area, and any point of an area narrower than 2 pixels, never count as a touch |
| Display.TrackScreenButtonsAreApart | Lib/Player/Src/display.c:24-62 | a touch hits at most one of the back, play and next buttons, and each button's centre hits it |
| Display.PointRect | Lib/Player/Src/display.c:150-155 | the box starts as the first point |
| Display.Include | Lib/Player/Src/display.c:157-162 | one loop step takes the minimum of x1/y1 and the maximum of x2/y2 with the point |
| Display.Bounds | Lib/Player/Src/display.c:150-162 | every point lies inside the bounding box |
| Display.BoundsAttained | Lib/Player/Src/display.c:150-162 | each side of the box is the coordinate of some point: x1/y1 are the minima and x2/y2 the maxima |
| Display.BoundsSize | Lib/Player/Src/display.c:164-165 | the icon's width and height are never negative |
| Display.Offset | Lib/Player/Src/display.c:164-170 | the offset added to every point puts the centre at the offset plus half the icon's width and height, rounded down |
| Display.Transformed | Lib/Player/Src/display.c:167-170 | one output per input point, and every point moves by the same offset as the first |
| Display.TransformedKeepsShape | Lib/Player/Src/display.c:167-170 | every point moves by the same offset, so differences between points are kept |
| Display.BoundsTranslate | Lib/Player/Src/display.c:167-170 | moving every point by an offset moves the bounding box by that offset |
| Display.TransformedPlacement | Lib/Player/Src/display.c:164-170 | the placed icon keeps its size and its box starts at the centre less half the size, plus the original box's corner |
| Display.TrackScreenIconsAreCentered | Lib/Player/Src/display.c:24-74 | every icon of the track screen has its box's corner at the origin (20×30 arrows and triangle, 5×30 pause bars), so each is drawn centred on its position |
| Display.IconBounds | Lib/Player/Src/display.c:150-162 | the first loop leaves the bounding box of the first `points_count` points, or of the first point alone when there are none |
| Display.TransformPoints | Lib/Player/Src/display.c:148-171 | writes exactly the first `points_count` outputs, each the input point moved by the centre less half the box, and leaves the later outputs and the input alone |
| Display.LogicalNot | Lib/Player/Src/display.c:193 | C's `!` gives 1 for 0 and 0 for anything else |
| Display.LogicalNotTwice | Lib/Player/Src/display.c:193-196 | negating twice restores exactly the layer numbers 0 and 1 |
| Display.Screen.constructor | Lib/Player/Src/display.c:19 | the foreground layer (1) is current at start-up |
| Display.Screen.SwapScreenLayers | Lib/Player/Src/display.c:189-197 | flips `current_layer`, makes it visible and the other hidden, and selects the other for drawing; the visible and drawing layers always differ, and drawing goes to the layer that was current |

## Left out

- Player.Player.Start: it fills the buffer through the repaired `ReadFlac`, not the loop as written, so the bytes it promises are the stream's start only under that repair. The reader is also created with an empty frame (`EmptyFrame`), whereas the source's freshly allocated frame is uninitialised (flac_reader.c:8). So the first read fetches the decoder's first frame, and the pending bytes after a metadata failure are exactly the decoder's frames.
- Player.Player.Update: it refills through the repaired `ReadFlac`, not the loop as written, so the bytes it promises are the next pending bytes only under that repair.
- Player.Player.Update: it requires a stream with at least one channel and at least 8 bits per sample when a refill is due. The source divides by both (player.c:134), and a zero divisor is undefined behaviour in C.
- Player.Player.Update: the sample count grows by the samples in a full half only on a full read. A short read stops the player, which resets the count to 0, so the short read's samples are never observable.
- Player.PlayingProgress: the progress is computed over reals; `double` rounding is not modelled.
- Integer widths are not modelled. The model does not capture wrap-around of `samples_played` (`uint64_t`), `bytes_read` (`unsigned`), the `int` point arithmetic of `transform_points`, or the `uint16_t` point count, beyond requiring that count to be below 65536.
- Files.FindFlacFiles: it requires a ranking of the card's directories. A directory that can reach itself through bare-name recursion would make the source recurse without bound.
- Files.FindFlacFiles: the 100-character limit on stored paths is not modelled. `strcpy`/`strcat` can overflow it (files.c:40-42); the model stores whole strings.
- The hardware and library effects are not modelled:
  - the `BSP_AUDIO_OUT_*` codec calls, `initialize_codec`, and all logging and tick timestamps in player.c;
  - `open_file`, `wait_for_sd_card` and `f_closedir` in files.c;
  - every LCD and touch-screen call in display.c: `initialize_screen`, the text, circle and polygon rendering, `render_info_screen`, `render_track_screen`.
- The decoder's internals are not modelled: `create_flac`, `read_metadata`, `read_frame` and `destroy_flac` are external. `Flac` stands for what they deliver.
- The reader's memory management is not modelled. `free_flac_reader` (`Free`) changes no modelled state.
- `draw_progress_bar` is not modelled, because it scales a `double` into pixels.
- The VSYNC busy-wait in `swap_screen_layers` is not modelled; it polls a hardware register.
- Interrupt preemption is not modelled. The two callbacks are methods the environment may call between control-loop steps, not true interleavings.
- `handle_touch` is not modelled because its body is empty. `is_back_button_active` and its siblings are declared but never defined.
- Lib/player/Src/display.c, logger.c and controller.c are not part of this model. controller.c opens the file at index 6 of the list without checking the list's count.
- The reader's frame as written is never initialised after `malloc`, so `ReadFlacAsWritten` takes its frame as an arbitrary given value.

## Findings

| source | as written | input that shows it | evidently intended | confidence | as-written member | corrected member |
|---|---|---|---|---|---|---|
| Lib/Player/Src/flac_reader.c:40-41 | after each `memcpy` only `bytes_read` grows; `buffer_index` stays put, so every chunk is the same leading part of the current frame | current frame [1,2], next frame [3,4], a read of 4 bytes: gives [1,2,1,2] | advance `buffer_index` by the chunk, so the read delivers [1,2,3,4] | not executed | FlacReader.FlacReader.ReadFlacAsWritten, FlacReader.AsWrittenRepeatsFrame | FlacReader.FlacReader.ReadFlac |
| Lib/Player/Src/flac_reader.c:8, 25-31 | the frame pointer is set at creation and never NULL, so no frame is ever fetched; once the read position is at the frame's end every chunk is empty and the loop never ends | a reader whose frame has size equal to `buffer_index` and a read of 1 byte: `bytes_to_read` is 0 on every pass | start from an empty frame, fetch the next frame whenever the current one is used up, and return short when the decoder has none | not executed | FlacReader.AsWrittenStallsAtFrameEnd | FlacReader.FlacReader.Refill |
