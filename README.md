# v4lout: a verified model of MPlayer's V4L2 output driver

`vo_v4lout.c` is an MPlayer video-output driver. It streams planar YUV
pictures into a Linux V4L2 output device through a ring of memory-mapped
buffers: it asks the device for four and runs with the three or four the
device grants. This project models the driver's core in Dafny and
proves what it does:

- **Format negotiation** (`negotiation.dfy`, module `Negotiation`): the
  switch from player format tags to V4L2 pixel formats in `set_v4lfmt`; the
  switch in `config` that fixes the chroma shifts and `stride_uv`; the
  capability mask of `get_v4ldev_cap`; and the crop defaulting of `preinit`.
- **Plane layout** (`layout.dfy`, module `Layout`): `setup_yuv_ptr`. The
  luma plane sits at the base of the buffer, U follows it and V follows U.
- **Slice copy** (`blit.dfy`, module `Blit`): the two row loops of
  `draw_slice` over a byte array, with `memcpy` as an in-place array
  update. The lemmas say exactly which bytes change and where each one
  comes from.
- **Device protocol** (`protocol.dfy`, module `Protocol`): the device calls
  and their answers for `set_v4lfmt`, `buffers_init`, `config` and
  `flip_page`. These are specification functions over the device's
  answers: the call log, who holds each buffer (`Free` with the driver,
  `Queued` with the device), the descriptor index and the frame-table
  results.
- **The driver** (`session.dfy`, module `V4lOut`): `class Session`. Its
  fields are the driver's globals (`v4l2_cap`, `image_width`,
  `image_height`, the chroma shifts, `stride_uv`, the descriptor index
  `v4lbuf.index`, the plane pointers) and the frame table
  `frame[BUF_NUM]`. Its methods are `set_v4lfmt`, `buffers_init`, `config`,
  `draw_slice`, `draw_image`, `get_image` and `flip_page`, each proved
  against the protocol functions.
- **Image flags** (`images.dfy`, module `Images`): the flag gates of
  `get_image` and `draw_image`.
- **Support** (`arith.dfy`, `wrappers.dfy`): unsigned shift, product and
  division facts, and `Option`.

The device is a source of answers passed in by the caller:
`FormatAnswers`, `InitAnswers`, `DeviceAnswers`, and one `DqAnswer` per
dequeue attempt. Every device call made by `set_v4lfmt`, `buffers_init`,
`config` and `flip_page` is appended to a ghost log `calls`, and each
buffer's owner is kept in a ghost `state`.

Constants follow the headers the driver includes: `BUF_NUM = 4` and
`DEQUEUE_TIMES_IN_SHOW = 16` come from the driver itself. The format tags
come from MPlayer's `img_format.h`, the image flags from `mp_image.h`, and
the V4L2 pixel formats, buffer types and capability bits from
`linux/videodev2.h`. Those headers are not part of this model, so their
values are written out in the Dafny.

Some of the driver's behaviour is easy to mistake for something else, and
the model keeps it as the code has it:

- If the overlay S_FMT fails, `set_v4lfmt` returns -1 and `config` fails;
  there is no fallback to plain output (vo_v4lout.c:242-245).
- The answer to G_FMT is not used. The planes are laid out with the
  requested picture size, not with a size the device reports back
  (vo_v4lout.c:227-231, 60-65).
- A part-way failure of `buffers_init` unmaps nothing: the mappings it
  already made stay in the frame table (vo_v4lout.c:289, 302, 314).
- `config` returns 0 when `buffers_init` fails. It only skips STREAMON
  (vo_v4lout.c:497-509).
- When every dequeue attempt fails, `flip_page` points the planes at
  whatever index the cleared descriptor holds. That is buffer 0 unless a
  failed attempt wrote an index. From a steady state and after a successful
  QBUF, that buffer is held by the device (vo_v4lout.c:563-571,
  `Protocol.FlipExhausted`). A failed QBUF is only logged
  (vo_v4lout.c:560-561): the driver keeps the buffer it drew into, and
  buffer 0 is its own only when it was that buffer
  (`Protocol.FlipExhaustedQueueFailed`).

## Model

| member | source | states |
|---|---|---|
| Negotiation.PixelFormat | vo_v4lout.c:201-213 | a tag is accepted exactly when it is I420, IYUV, YV12 or 422P; I420, IYUV and YV12 map to YUV420 and 422P maps to YUV422P |
| Negotiation.ChromaShifts | vo_v4lout.c:478-493 | a tag is accepted exactly when set_v4lfmt accepts it; I420, IYUV and YV12 get shifts (1, 1) and 422P gets (1, 0) |
| Negotiation.ShiftsMatchDeviceFormat | vo_v4lout.c:478-493 | config's switch accepts exactly the tags set_v4lfmt accepts, and its shifts are the subsampling of the device format set_v4lfmt chose |
| Negotiation.OutputCaps | vo_v4lout.c:118-119 | the mask keeps the output and overlay bits of the device's capabilities and clears every other bit |
| Negotiation.OutputCapsUsable | vo_v4lout.c:118-125 | the mask is non-zero, so the probe succeeds, exactly when the device offers plain output or overlay output |
| Negotiation.DefaultCrop | vo_v4lout.c:357-363 | width and height are the options when non-zero and the display resolution otherwise; left and top are copied; the type is OVERLAY exactly when the overlay bit is set |
| Negotiation.ExplicitCropIgnoresDisplay | vo_v4lout.c:360-361 | with both sizes given, the crop does not depend on the display resolution |
| Negotiation.CropRoundTrip | vo_v4lout.c:358-363 | a crop fed back as options is reproduced, whatever the display |
| Images.GetImage | vo_v4lout.c:407-420 | a non-planar image is refused; a planar one gets the plane pointers, the luma and chroma strides, and the DIRECT flag, with its other flags kept |
| Images.DirectImageNotBlitted | vo_v4lout.c:407-429 | an image accepted by get_image is never copied again by draw_image |
| Images.DrawImageBlitsIff | vo_v4lout.c:422-429 | draw_image copies exactly when neither DIRECT nor DRAW_CALLBACK is set |
| Layout.PlaneLayout | vo_v4lout.c:60-65 | the planes name the descriptor's buffer, luma is at offset 0, and V ends at the frame size |
| Layout.PlanesTileFrame | vo_v4lout.c:60-65 | the three plane regions are pairwise disjoint and together cover exactly the first FrameSize bytes |
| Layout.ChromaNoLargerThanLuma | vo_v4lout.c:63-64 | a chroma plane is no larger than the luma plane, and a frame is at most three luma planes |
| Layout.Yuv420FrameSize | vo_v4lout.c:63-64 | for 4:2:0 with even sides, each chroma plane is a quarter of luma and the frame is 3/2 of luma |
| Layout.Yuv422FrameSize | vo_v4lout.c:63-64 | for 4:2:2 with an even width, each chroma plane is half of luma and the frame is twice luma |
| Layout.LayoutFits | vo_v4lout.c:60-65 | the layout setup_yuv_ptr computes fits, in order and without overlap, in any buffer of at least FrameSize bytes |
| Layout.SmallerPictureFits | vo_v4lout.c:467-468 | the pointers config leaves behind when it stores a new picture size and then buffers_init fails still hold the planes of a picture no wider, no taller and with the same subsampling |
| Blit.PatchAt | vo_v4lout.c:523 | after a memcpy, each byte in the copied range holds the matching row byte and every other byte is unchanged |
| Blit.MemCpy | vo_v4lout.c:523 | memcpy into the mapped buffer leaves it as Patch of its old contents |
| Blit.CopyRowsInPlace | vo_v4lout.c:522-526 | the luma loop leaves the buffer as CopyRows of its old contents |
| Blit.CopyRowPair | vo_v4lout.c:529-535 | one chroma iteration (U row, then V row) takes CopyRowPairs from i rows to i + 1 |
| Blit.CopyRowPairsInPlace | vo_v4lout.c:528-536 | the chroma loop leaves the buffer as CopyRowPairs of its old contents |
| Blit.CopyRowsWritten | vo_v4lout.c:522-526 | byte j of destination row i holds byte j of source row i |
| Blit.CopyRowsKept | vo_v4lout.c:522-526 | a byte outside every destination row keeps its value |
| Blit.CopyRowPairsWrittenU | vo_v4lout.c:528-536 | byte j of U row i holds byte j of source U row i, even though V rows are written in the same iterations |
| Blit.CopyRowPairsWrittenV | vo_v4lout.c:528-536 | byte j of V row i holds byte j of source V row i |
| Blit.CopyRowPairsKept | vo_v4lout.c:528-536 | a byte outside every U and V row keeps its value |
| Blit.SliceCopiesFit | vo_v4lout.c:518-536 | when the slice lies inside the picture, every row stays inside the buffer and its own plane, every source read is in range, and all U rows come before the V plane |
| Blit.SliceWritesLuma | vo_v4lout.c:518-526 | luma byte j of slice row i lands at image_width*y + image_width*i + x + j of the luma plane and comes from stride[0]*i + j |
| Blit.SliceWritesChroma | vo_v4lout.c:519-536 | chroma byte j of row i lands at stride_uv*(y>>ys) + stride_uv*i + (x>>xs) + j of the U and of the V plane, and comes from stride[1]*i + j and stride[2]*i + j |
| Blit.SliceWritesU | vo_v4lout.c:528-536 | the U half of SliceWritesChroma: U row i starts at that offset and holds source U row i |
| Blit.SliceWritesV | vo_v4lout.c:528-536 | the V half of SliceWritesChroma |
| Blit.SliceKeepsRest | vo_v4lout.c:512-539 | every byte outside the slice's luma, U and V rows keeps its value |
| Blit.SliceStaysInPlanes | vo_v4lout.c:512-539 | luma rows lie in the luma plane, U rows in the U plane and V rows in the V plane |
| Blit.LumaRowInPlane | vo_v4lout.c:518-526 | a byte a luma row writes lies in the luma plane |
| Blit.URowInPlane | vo_v4lout.c:528-536 | a byte a U row writes lies in the U plane |
| Blit.VRowInPlane | vo_v4lout.c:528-536 | a byte a V row writes lies in the V plane |
| Protocol.NegotiateCallOrder | vo_v4lout.c:201-246 | a refused tag makes no device call; an accepted one starts with S_FMT for its device format; the overlay window is set exactly when S_FMT and G_FMT succeeded on an overlay device; at most three calls are made |
| Protocol.StopFrom | vo_v4lout.c:278-317 | the iteration where the loop breaks, searching from k: every iteration before it gets through, and it fails unless it is n |
| Protocol.Stop | vo_v4lout.c:278-317 | the iteration where the loop breaks: every earlier one gets through, and it fails unless it is n |
| Protocol.StopAt | vo_v4lout.c:278-317 | Stop is the unique such iteration |
| Protocol.LoopBreaksAt | vo_v4lout.c:284-315 | a loop breaking at i runs i + 1 iterations, logs the calls of the failing step, and maps the frames before i (plus i when its mmap succeeded) |
| Protocol.LoopCompletes | vo_v4lout.c:278-317 | a completed loop runs n iterations and maps every granted buffer |
| Protocol.InitOkIff | vo_v4lout.c:264-321 | buffers_init succeeds exactly when at least three buffers are granted and each is queried and mapped, and queued unless it is the last |
| Protocol.StepQueued | vo_v4lout.c:284-316 | one iteration enqueues its own buffer when QUERYBUF and mmap succeeded and it is not the last buffer, and enqueues nothing otherwise |
| Protocol.LoopQueued | vo_v4lout.c:278-317 | iterations that all succeed enqueue buffers 0, 1, ... in order, leaving out the last granted one |
| Protocol.InitQueuesAllButLast | vo_v4lout.c:278-317 | a successful buffers_init enqueues buffers 0..n-2, each exactly once and in order, and never buffer n-1 |
| Protocol.InitEndsSteady | vo_v4lout.c:278-317 | after a successful buffers_init the device holds every buffer but n-1, and the descriptor and the plane pointers name buffer n-1 |
| Protocol.InitRefused | vo_v4lout.c:264-276 | when REQBUFS fails or grants fewer than three buffers, the only call made is REQBUFS; nothing is queried, mapped or enqueued, -1 is returned, and the descriptor, pointers and frame table are unchanged |
| Protocol.InitFailureKeepsMappings | vo_v4lout.c:284-315 | a failed loop leaves every earlier mapping in place, and the device holds exactly the buffers before the failing iteration |
| Protocol.ConfigIgnoresInitFailure | vo_v4lout.c:497-509 | after a successful negotiation, a failed buffers_init still gives config 0 and no STREAMON |
| Protocol.ConfigStatusIff | vo_v4lout.c:467-509 | config returns 0 exactly when negotiation succeeds and STREAMON succeeds whenever it is issued; STREAMON is issued exactly after a successful buffers_init |
| Protocol.SteadyOneFree | vo_v4lout.c:307-316 | in a steady state the driver holds one buffer and the device holds the rest |
| Protocol.AttemptsFrom | vo_v4lout.c:568-569 | from attempt k on, the loop stops at the first success or at the last attempt allowed |
| Protocol.Attempts | vo_v4lout.c:568-569 | between 1 and 16 DQBUF attempts are made; all but the last fail, and the last succeeds unless all 16 were used |
| Protocol.AttemptsAt | vo_v4lout.c:568-569 | the count is k + 1 when the first k attempts fail and attempt k succeeds or is the 16th |
| Protocol.IndexAfterNoWrite | vo_v4lout.c:563-568 | if no attempt writes an index, the descriptor keeps the 0 that CLEAR left |
| Protocol.IndexAfterLatest | vo_v4lout.c:563-568 | the descriptor's index is the index written by the latest writing attempt, or 0 when no attempt wrote one |
| Protocol.PollCount | vo_v4lout.c:568-569 | n attempts cost n DQBUF calls and n-1 pauses, and the log ends in a DQBUF |
| Protocol.FlipBounded | vo_v4lout.c:555-569 | flip_page makes at most 16 dequeue attempts with at most 15 pauses, and queues the buffer it drew exactly once |
| Protocol.FlipKeepsSteady | vo_v4lout.c:560-571 | from a steady state, a successful QBUF followed by a dequeue of a granted buffer ends steady, with the dequeued buffer current |
| Protocol.FlipExhausted | vo_v4lout.c:563-571 | after a successful QBUF from a steady state, when all 16 attempts fail the device holds every buffer; with no index written, the planes point at buffer 0, which is queued |
| Protocol.FlipExhaustedQueueFailed | vo_v4lout.c:560-571 | after a failed QBUF from a steady state, when all 16 attempts fail no buffer changes hands; with no index written, the planes point at buffer 0, which the driver owns exactly when it drew into buffer 0 |
| Protocol.FlipQueueFailureBreaksSteady | vo_v4lout.c:560-568 | a failed QBUF followed by a successful dequeue of another buffer leaves two buffers with the driver, so no steady state holds |
| V4lOut.Session.constructor | vo_v4lout.c:40-58 | the globals start zeroed, the pointers NULL, the frame table empty and the call log empty |
| V4lOut.Session.Probe | vo_v4lout.c:118-125 | v4l2_cap becomes the masked capabilities, and the result is -1 exactly when the mask is empty |
| V4lOut.Session.SetupYuvPtr | vo_v4lout.c:60-65 | the plane pointers become PlaneLayout of the descriptor's buffer |
| V4lOut.Session.SetV4lFmt | vo_v4lout.c:196-250 | returns 0 exactly when NegotiateOk holds, and logs NegotiateCalls |
| V4lOut.Session.SetUpBuffer | vo_v4lout.c:279-316 | one loop iteration: the descriptor names buffer i, exactly the StepCalls are logged, frame[i] gets a fresh mapping of the reported length or MAP_FAILED, planes are set up when mmap succeeded, the buffer is Queued when QBUF succeeded, and every other frame entry is unchanged |
| V4lOut.Session.CompletedLoop | vo_v4lout.c:278-317 | the state after n successful iterations is the loop's result |
| V4lOut.Session.BrokenLoop | vo_v4lout.c:284-315 | the state after a failure at iteration s is the loop's result |
| V4lOut.Session.SetUpNext | vo_v4lout.c:278-317 | one iteration either extends the successful prefix or is where the loop breaks |
| V4lOut.Session.SetUpBuffers | vo_v4lout.c:278-317 | the loop stops at Stop and leaves globals, log, states and frame table as LoopResult says |
| V4lOut.Session.BuffersInit | vo_v4lout.c:252-321 | returns 0 exactly when InitOk holds; the log grows by InitCalls; descriptor, pointers, buffer states and frame entries follow InitIndex, InitPlanesFrame, InitStates and MapResult |
| V4lOut.Session.InitAndStream | vo_v4lout.c:497-506 | sets up the buffers and issues STREAMON after a successful buffers_init; returns -1 only when that STREAMON fails; descriptor, plane pointers, buffer states and frame entries follow InitIndex, InitPlanesFrame, InitStates and MapResult, whether buffers_init succeeded or not; after success the state is steady on a mapped current buffer |
| V4lOut.Session.Negotiate | vo_v4lout.c:467-495 | stores the picture size and negotiates; on success the shifts are ChromaShifts of the tag and stride_uv is width >> xs; on failure they are unchanged |
| V4lOut.Session.Config | vo_v4lout.c:459-510 | returns ConfigStatus and logs ConfigCalls; a failed negotiation leaves buffers, pointers and frame table alone; after a successful negotiation the shifts, stride_uv, descriptor, plane pointers, buffer states and frame entries follow ChromaShifts and buffers_init's functions, even when buffers_init fails and config still returns 0; after a successful negotiation and buffers_init the state is steady with the planes on a mapped buffer, ready to draw |
| V4lOut.Session.DrawSlice | vo_v4lout.c:512-539 | returns 0 and leaves the current buffer as SliceResult of its old contents |
| V4lOut.Session.DrawImage | vo_v4lout.c:422-429 | returns VO_TRUE; copies the whole picture as one slice exactly when neither DIRECT nor DRAW_CALLBACK is set, and otherwise changes nothing |
| V4lOut.SlotResultAtStop | vo_v4lout.c:278-317 | the frame entry the loop invariant records for the iteration where buffers_init's loop stops is the one LoopMapResult gives |
| V4lOut.Session.GetImage | vo_v4lout.c:407-420 | is Images.GetImage on the session's globals: a planar image gets the current planes, image_width and stride_uv as strides, and its flags with DIRECT added, which stops draw_image from copying it; a non-planar one is refused |
| V4lOut.Session.Dequeue | vo_v4lout.c:563-569 | the countdown loop logs PollCalls of Attempts; the descriptor ends at IndexAfter and the dequeued buffer, if any, is Free again |
| V4lOut.Session.FlipPage | vo_v4lout.c:552-572 | logs the QBUF then the polling calls; the buffer drawn is Queued when QBUF succeeds, the dequeued one is Free; the planes are set up on FlipIndex |

The helper lemmas in `arith.dfy` and the row-step lemmas in `blit.dfy`
(`RowKept`, `RowEarlier`, `RowLast`, `PairAt`, `PairKept`, `PairKeptU`,
`PairKeptV`, `PairLastU`, `PairLastV`, `RowBefore`, `RowStartFrom`,
`RowsFrom`, `Step`, `SrcRowAt`, the `*Fits` lemmas) are proof steps with no
row of their own. So are `Protocol.EnqueuedAppend`,
`Protocol.LoopCallsKinds`, `Protocol.PollKinds` and
`Protocol.AllEnqueued`. `FlipPage`, `Dequeue` and `SetupYuvPtr` change only
the fields their `modifies` frames name, so every other global is
unchanged by construction.

## Left out

- Device I/O (`open`, `close`, `ioctl`, `mmap`) is foreign kernel code. Each device call made by `set_v4lfmt`, `buffers_init`, `config` and `flip_page` is a log entry, and its outcome is an answer passed in by the caller.
- `get_v4ldev_cap`'s `open` of the device and its VIDIOC_QUERYCAP call (vo_v4lout.c:101-116) are neither logged nor answered: `Probe` takes the capability word the query would return and models only the mask and its test.
- The device's framebuffer query (`get_screeninfo`), the overlay output, ENUMOUTPUT, S_FBUF and S_CROP calls (`crop_init`), and `set_color`'s control writes are device I/O with no logic of the driver's own. The display resolution is a parameter of `DefaultCrop`.
- `preinit`'s sequencing of those calls and its closing of the device on failure are left out, for the same reason.
- `gettimeofday` timestamps on QBUF and `usleep` between dequeue attempts are wall-clock behaviour. A pause is a `Wait` log entry.
- Logging (`mp_msg`), option parsing (`subopt_parse` and the help text), the `LIBVO_EXTERN` dispatch, the `control` switch, `query_format`'s fixed capability mask, and the empty `check_events`, `draw_osd` and `draw_frame` carry no logic of their own.
- `uninit` (STREAMOFF, freeing the device paths, closing the device) is resource release.
- V4lOut.Session.BuffersInit: an entry changed by the loop is stated to hold a mapping of the reported length. That the mapping is a new array is stated per iteration by `SetUpBuffer`, not carried through the loop.
- V4lOut.Session.Config: states the frame table through `Installed`, as `BuffersInit` does, so the same freshness gap applies.
- V4lOut.Session.InitAndStream: states the frame table through `Installed`, as `BuffersInit` does, so the same freshness gap applies.
- The bytes a mapping holds when mmap returns are not modelled. A new mapping is a fresh array of the reported length.
- Pointers are modelled as a frame index plus offsets (`Planes`). Before the first `setup_yuv_ptr` the pointers are NULL in the driver and `Planes(0, 0, 0, 0)` in the model. Pointer arithmetic on a NULL pointer is not modelled.
- V4lOut.Session.DrawSlice: requires `SliceFits`: the slice inside the picture, the source planes long enough, and, through `PlanesFit`, the luma, U and V planes of the current picture fitting one after another at the plane pointers inside the mapped buffer. The driver checks none of this and relies on the player; it never compares the picture with the length QUERYBUF reported. `config` stores the new picture size before `buffers_init` runs (vo_v4lout.c:467-468, 497), so when a later `config` fails in `buffers_init` the pointers keep the previous picture's layout. `Layout.SmallerPictureFits` shows that this stale layout still satisfies `PlanesFit` for a picture no larger with the same subsampling. A larger picture, or a change of subsampling, can leave the planes overlapping or running past the buffer, and the driver would then write out of range; the model does not cover drawing in that state.
- V4lOut.Session.DrawSlice: also requires `Drawable`, which the driver never checks: the plane pointers name a mapped frame, and stride_uv is image_width >> chroma_x_shift. The driver can reach two states that fail it. (a) A config whose set_v4lfmt refuses the format stores the new image_width and image_height (vo_v4lout.c:467-468), but stride_uv is set only after negotiation succeeds (vo_v4lout.c:495), so it may no longer match. (b) A config whose mmap fails for the buffer the pointers name leaves MAP_FAILED in that frame entry (vo_v4lout.c:292-303). In the driver, image_y and the chroma pointers still point into the earlier mapping, which buffers_init never unmaps, and config returns 0, so the player may keep drawing there. `Planes` names a frame by index and cannot follow that earlier mapping. Drawing in either state is not modelled.
- V4lOut.Session.DrawImage: requires the same of a whole picture, but only when it copies.
- Integer widths are not modelled. The picture size, rectangle and strides are natural numbers, so negative strides, the unsigned-to-int conversion of `width` and `height`, and overflow of `image_width * image_height` are out of scope.
- `InitWellFormed` requires the granted count to be at most `BUF_NUM`. The loop runs to the granted count, and a larger grant would index past the four-entry frame table.
- `config`'s default branch in the shift switch is unreachable once `set_v4lfmt` has accepted the tag (`Negotiation.ShiftsMatchDeviceFormat`), so `Negotiate` has no code for it.
- `get_image` and `draw_image` return VO_TRUE/VO_FALSE. These are `Some`/`None` for `GetImage` and 1 for `DrawImage`.
