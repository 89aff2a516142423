# Detection overlay draw filter and audio sample-format table

This project models two parts of rkmedia in Dafny and proves properties of them.

The first is the draw filter of `src/rknn/draw_filter.cc`. A detector pushes batches of face boxes into the filter through its control channel. For every image buffer that passes through, the filter does the following:

- it drops all queued batches except the newest;
- it discards that batch when its first result and the frame's clock are at least 134 ms apart (the whole milliseconds between them exceed 133);
- otherwise it draws the batch with exactly one of two renderers:
  - **Software:** it burns red outlines into the NV12 frame.
  - **Hardware:** it builds one OSD region. The region is the bounding box of the 16-aligned boxes, and it carries a palette bitmap of their outlines. The filter then hands the region to the attached encoder flow.

The second is the audio sample-format table of `src/sound.cc`:

- the two lookups between formats and their configuration names;
- the validity test of a sample description;
- the byte size of one sample;
- the format step of reading a description from a parameter map and writing it back.

Modules:

- `Wrappers`: `Option`.
- `Image`: the pixel-format enumeration and image info of `image.h`.
- `Raster`: the byte type and row-major plane addressing, with the arithmetic lemmas for it.
- `Geometry`: rectangles, clamping, 16-alignment, the bounding box and translation.
- `ResultQueue`: detection results, batches, the queue operations and the staleness test.
- `Nv12`: `draw_nv12_rect`.
- `Osd`: `hw_draw_rect`, the region layout, `DoHwDrawRect` and `DoHwDraw`.
- `DrawFilter`: the filter state, `draw_rect`, `DoDraw`, `Process` and `IoCtrl`.
- `Sound`: the sample-format table.

Design choices:

- **State as values.** The filter is a datatype value. `Process` and `IoCtrl` return the filter's next state instead of mutating it.
- **Pixel writes on sequences.** Frames and bitmaps are `seq<byte>`. The renderers are methods that return the written sequence. They loop exactly as the C loops do, and their loop invariants say which bytes have been painted so far.
- **Unseen platform values are inputs.** The allocator's answer is a boolean parameter (`allocOk`). The frame clock is a field of the buffer. The encoder control call becomes the returned region descriptor.
- **Unseen strings are inputs.** The audio format names and parameter keys are defined in headers outside this model. They are record parameters (`FormatNames`, `ParamKeys`), so every property states what it needs of them.

## Model

| member | source | states |
|---|---|---|
| Geometry.Clamp | src/rknn/draw_filter.cc:258-273 | afterwards left >= 0, top >= 0, right <= w - thick and bottom <= h - thick; an edge already within its limit is unchanged, and a moved edge lands exactly on its limit |
| Geometry.ClampIdempotent | src/rknn/draw_filter.cc:258-273 | a rectangle within the limits is not touched, so clamping twice equals clamping once |
| Geometry.AlignRect | src/rknn/draw_filter.cc:117-121 | all four edges become multiples of 16; the top-left corner moves right/down by less than 16, the bottom-right left/up by less than 16 |
| Geometry.CombineRect | src/rknn/draw_filter.cc:313-330 | the empty list gives the zero rectangle; otherwise the result encloses every input and each of its edges is that edge of some input |
| Geometry.CombineSingleton | src/rknn/draw_filter.cc:317-322 | a single rectangle is returned unchanged |
| Geometry.CombineTwoBoxes | src/rknn/draw_filter.cc:313-330 | the boxes (16,16,48,48) and (64,32,96,64) combine to (16,16,96,64) |
| Geometry.CombineAligned | src/rknn/draw_filter.cc:124-135 | the bounding box of 16-aligned rectangles is 16-aligned, so the region width and height are multiples of 16 |
| Geometry.Translate | src/rknn/draw_filter.cc:125-130 | translation keeps width and height, and shifting back by the origin restores the rectangle |
| Nv12.DrawNv12Rect | src/rknn/draw_filter.cc:282-311 | with thick >= 1 and a clamped rectangle, every write is inside the frame. A luma byte becomes Y exactly on the inclusive band and is otherwise unchanged. For even widths a chroma pair becomes (U, V) exactly when a pixel of its 2x2 block is on the band. No other chroma value appears, bytes past the frame are kept, and an empty rectangle writes nothing |
| Osd.HwDrawRect | src/rknn/draw_filter.cc:332-343 | with the rectangle inside the w x h bitmap, a bitmap byte becomes the index exactly on the half-open band and is otherwise unchanged; bytes past the plane are kept |
| Osd.HwBandAsymmetry | src/rknn/draw_filter.cc:334-337 | on a middle row the left band is thick columns wide, the right band only thick - 1, and the right edge column itself is never drawn |
| Osd.AlignAll | src/rknn/draw_filter.cc:114-123 | one aligned rectangle per detection box, in order; each is on the 16-pixel grid and lies inside its detection box |
| Osd.HwLayout | src/rknn/draw_filter.cc:114-135 | one translated box per detection box; the region's width and height are multiples of 16; every translated box lies within [0, width] x [0, height] |
| Osd.HwLayoutPlacement | src/rknn/draw_filter.cc:114-135 | the region's box is the tight bounding box of the aligned boxes (zero for an empty batch), and shifting a translated box back by the region's origin gives the aligned box |
| Osd.InvertedBoxRegion | src/rknn/draw_filter.cc:114-135 | the box (20,20,30,30) aligns to the inverted box (32,32,16,16), so the region is -16 x -16 |
| Osd.UnalignedBoxSnapped | src/rknn/draw_filter.cc:117-135 | the box (10,10,40,40) is snapped inward to the region (16,16,32,32), one 16 x 16 tile |
| Osd.DoHwDrawRect | src/rknn/draw_filter.cc:80-105 | the region is rejected exactly when it is enabled and its width or height is not a multiple of 16. An enabling call sends the header with the first width*height bitmap bytes. A disabling call sends the header alone, marked disabled |
| Osd.DoHwDraw | src/rknn/draw_filter.cc:107-157 | nothing is sent when the bitmap cannot be allocated; otherwise region 7 is sent, enabled, at the bounding box of the aligned boxes (never rejected by the size check); its width*height bitmap holds 0x23 on the band of some translated box and 0xFF elsewhere, and is all 0xFF when the width or height is not positive |
| ResultQueue.Push | src/rknn/draw_filter.cc:234-235 | the batch becomes the back of the queue and nothing else moves |
| ResultQueue.DropToNewest | src/rknn/draw_filter.cc:183-187 | popping the front while two or more remain leaves exactly the newest batch |
| ResultQueue.PushAll | src/rknn/draw_filter.cc:223-236 | a series of pushes appends exactly those batches, in order |
| ResultQueue.NewestSurvivesPushes | src/rknn/draw_filter.cc:183-187 | however many batches were pushed since the last frame, only the last pushed survives |
| ResultQueue.TruncDiv | src/rknn/draw_filter.cc:188-189 | the quotient truncates toward zero: for a non-negative dividend q*b <= a < q*b + b, for a non-positive one q*b - b < a <= q*b |
| ResultQueue.IsStale | src/rknn/draw_filter.cc:188-190 | the batch is stale exactly when its timestamp and the frame clock are at least 134000 microseconds apart |
| DrawFilter.RedChannels | src/rknn/draw_filter.cc:13 | the outline colour yields the bytes Y 0x4C, U 0x54, V 0xFF |
| DrawFilter.Decide | src/rknn/draw_filter.cc:180-203 | an empty queue draws nothing; a stale newest batch is popped, leaving an empty queue and drawing nothing; an on-time newest batch stays as the only queued batch and is drawn by the hardware renderer exactly when hardware drawing is selected, else by the software renderer |
| DrawFilter.DrawRect | src/rknn/draw_filter.cc:252-280 | a non-NV12 frame is unchanged; an NV12 frame gets the outline of the clamped rectangle in red, as described for Nv12.DrawNv12Rect |
| DrawFilter.DoDraw | src/rknn/draw_filter.cc:159-167 | after drawing every box: a non-NV12 frame is unchanged; on NV12 a luma byte is red exactly on the band of some clamped box, for even widths a chroma pair is red exactly when its block meets such a band, no other chroma value appears, and bytes past the frame are kept |
| DrawFilter.Process | src/rknn/draw_filter.cc:169-204 | a missing or non-image input or output gives -EINVAL, with state and output untouched, whatever is queued. Otherwise the result is 0 and the output is the input buffer, with only its bytes possibly changed. Queue and renderer follow DrawFilter.Decide. The hardware path leaves the frame unchanged and sends what Osd.DoHwDraw sends. The software path sends nothing and draws as DrawFilter.DoDraw does |
| DrawFilter.CopyResults | src/rknn/draw_filter.cc:229-233 | the copy loop, started from a prefix of the array, ends with exactly the first size results, or with what it had when size results were already copied |
| DrawFilter.ReceivedBatch | src/rknn/draw_filter.cc:226-233 | the pushed batch is the first size results, or empty for a null array or a non-positive size |
| DrawFilter.IoCtrl | src/rknn/draw_filter.cc:206-244 | setting the handler replaces it; a detection sub-request appends its batch at the back of the queue; the configuration never changes; the result is -1 for an unknown request and 0 otherwise |
| DrawFilter.PushedBatchDrawnNext | src/rknn/draw_filter.cc:180-200 | after a push, the next on-time frame draws exactly the pushed batch, whatever was queued before |
| DrawFilter.StaleBatchNotReused | src/rknn/draw_filter.cc:188-194 | once a stale batch is dropped, the next frame without a push draws nothing |
| Sound.FindByFmt | src/sound.cc:22-24 | the index of the first table entry with that format, or the table length when there is none |
| Sound.FindByName | src/sound.cc:27-29 | the index of the first table entry with that name, or the table length when there is none |
| Sound.SampleFmtToString | src/sound.cc:13-25 | U8, S16, S32, Vorbis, AAC and MP2 map to their table names; every other format, FmtNone included, maps to null |
| Sound.StringToSampleFmt | src/sound.cc:13-30 | FmtNone exactly for a string that is not a table name; otherwise a format whose name is that string |
| Sound.FormatRoundTrip | src/sound.cc:13-30 | with distinct names (empty names allowed), every named format survives a trip through its name |
| Sound.NameRoundTrip | src/sound.cc:13-30 | every table name survives a trip through its format |
| Sound.SharedNameTakesFirst | src/sound.cc:27-30 | were two formats to share a name, the name would map to the earlier one, so distinctness is needed for the round trip |
| Sound.GetSampleSize | src/sound.cc:37-49 | the size is channels times 1, 2 or 4 for U8, S16 and S32, and 0 for every other format, computed modulo 2^32; it equals the exact product when that fits |
| Sound.SampleSizePositive | src/sound.cc:32-49 | a description accepted by Sound.SampleInfoIsValid (known format, channels > 0, rate > 0) with a PCM format and fewer than 2^30 channels has a positive sample size (with more, the 32-bit size can wrap to 0); a compressed format has size 0 |
| Sound.ParseFormatField | src/sound.cc:53-61 | a missing or empty format entry rejects with the description untouched. A value that is not a format name rejects with the format set to FmtNone. A name sets the format to the one named. Other fields are not touched |
| Sound.ToParamString | src/sound.cc:71-81 | empty exactly when the format has no name; otherwise four entries, the first being the format's name |
| Sound.FormatSurvivesParams | src/sound.cc:53-81 | with distinct, non-empty names, the format written by ToParamString is read back by ParseFormatField |

## Left out

- **Locking.** `AutoLockMutex`, `ReadWriteLockMutex` and the concurrency between producer and consumer are left out. The model is sequential. The unlocked reads of the queue in `Process` are a race, not a behaviour.
- **CPU access.** `BeginCPUAccess`/`EndCPUAccess` are cache maintenance with no effect on the values.
- **Allocation and copies.** The `malloc`/`memcpy`/`free` paths become the sent descriptor value and the `allocOk` input. A negative bitmap size is treated as a failed allocation, since `malloc` of a huge `size_t` fails.
- **The `DRAW_HW_BUFFER` build variant.** It is a compile-time alternative allocator.
- **Logging.** `LOG` has no effect on the values.
- **The constructor.** Its parameter-string parsing (`parse_media_param_map`, `atoi`) is left out. The configuration fields of `DrawFilter.Filter` (thickness, hardware drawing, handler) are free inputs that the constructor would set, and every property holds for any value of them. `DrawFilter.Defaults` records what the constructor sets without parameters: thickness 2, hardware drawing off, no handler. `need_async_draw_` is never read and is not modelled.
- **`G_NN_HANDLER`.** It only assigns a local copy of the argument, so its reply is the filter unchanged.
- **`DoDrawRect`.** It only forwards the filter's thickness to `draw_rect`. `DoDraw` passes the thickness directly.
- **Stride.** The renderers address the frame by its width, as the code does. Frames whose stride (`vir_width`) differs from their width are not modelled.
- **Undefined behaviour.**
  - An empty batch reaching `Process`: `front()` of an empty list is undefined behaviour, so `DrawFilter.ProcessDefined` requires the newest batch to be non-empty.
  - A sub-request whose `size` exceeds its array: `DrawFilter.IoCtrl` requires the array to hold `size` results.
- **Thickness and buffer size.** The software path is modelled for an outline thickness of at least 1 (the default is 2) and a frame of at least `Nv12.FrameLen` bytes; `DrawFilter.ProcessDefined` requires both when a frame is drawn in software. A negative thickness makes the band test fail inside every rectangle, so the C code writes nothing; a zero thickness can write past the frame when a clamped right or bottom edge reaches the width or height. Neither case is modelled.
- **Integer widths.** `int` overflow in the pixel arithmetic and in the 64-bit timestamps is not modelled. Nor is the conversion of the 64-bit millisecond quotient into the `int` `duartion_ms` at `src/rknn/draw_filter.cc:188-189`: in C a gap of 2^31 ms or more can truncate to a small value and read as on time, so `ResultQueue.IsStale` matches the code only for gaps below that. The integers are unbounded. The only wrap-around modelled is the 32-bit `size_t` of `GetSampleSize`.
- Nv12.DrawNv12Rect: for odd widths it states only that every chroma byte is unchanged or U/V, not which pair changes. With an odd width the V byte of the last column spills into the next chroma row. For the same reason `Nv12.FrameLen` is one byte longer than the NV12 layout for an odd width. The C code reaches that byte only with thickness 1, since clamping keeps the right edge at most `width - thick`; for thicker outlines the model asks for one byte more than the code can touch.
- DrawFilter.DrawRect: inherits the odd-width chroma gap of `Nv12.DrawNv12Rect` through `DrawFilter.SoftwareDrawn`.
- DrawFilter.DoDraw: inherits the same odd-width chroma gap through `DrawFilter.SoftwareDrawn`.
- DrawFilter.Process: on the software path inherits the same odd-width chroma gap through `DrawFilter.SoftwareDrawn`.
- **Alignment macros.** `UPALIGNTO16`/`DOWNALIGNTO16` are defined outside this model. They are taken to round up and down to multiples of 16, as two's-complement masking does. Likewise `VALUE_MIN`/`VALUE_MAX`, used by `combine_rect` at `src/rknn/draw_filter.cc:324-327`, are defined outside this model and are taken to be the plain minimum and maximum (`Geometry.Min`, `Geometry.Max` in `Geometry.Union`).
- Sound.ParseFormatField: models only the format step of `ParseSampleInfoFromMap`. The numeric fields (`std::stoi`, with its exceptions) are not modelled. `CHECK_EMPTY` is defined outside this model and is taken to reject a missing or empty entry.
- Sound.ToParamString: yields the key/value entries, not the exact text `PARAM_STRING_APPEND*` would produce, because those macros are defined outside this model.
- **live555 glue.** `live555/server/live555_media_input.hh` is RTSP transport and is not part of this model.

## Hardware-path size check

The box (10,10,40,40) aligns to the single tile (16,16,32,32): the left and top edges round up to the grid and the right and bottom edges round down (`Osd.UnalignedBoxSnapped`). More generally, the region built by `DoHwDraw` always has a width and height that are multiples of 16 (possibly negative), so the 16-multiple check at `src/rknn/draw_filter.cc:82-86` can never fail from `DoHwDraw` (`Osd.HwLayout`, `Osd.DoHwDraw`).

A box that lies inside one 16-pixel tile, such as (20,20,30,30), aligns to the inverted box (32,32,16,16) (`Osd.InvertedBoxRegion`). A batch whose aligned boxes are inverted in both axes therefore gives a region with negative width and height. Their product is positive, so the bitmap is allocated, and the size check passes it. `hw_draw_rect` writes nothing into it. An enabled region is sent with that negative size and a wholly transparent bitmap of width * height bytes (`Osd.DoHwDraw`).
