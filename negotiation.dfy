/** Format negotiation rules of the v4lout driver: the switch from player
    format tags to V4L2 pixel formats, the switch that fixes the chroma
    shifts, the capability mask and the defaulting of the crop rectangle.
    Tag values follow MPlayer's img_format.h, V4L2 codes and capability bits
    follow linux/videodev2.h. */
module Negotiation {
  import opened Wrappers

  // Player format tags (fourcc codes).
  const IMGFMT_YV12: nat := 0x32315659
  const IMGFMT_I420: nat := 0x30323449
  const IMGFMT_IYUV: nat := 0x56555949
  const IMGFMT_422P: nat := 0x50323234

  // Device pixel formats.
  const V4L2_PIX_FMT_YUV420: nat := 0x32315559
  const V4L2_PIX_FMT_YUV422P: nat := 0x50323234

  // Capability bits and buffer types.
  const V4L2_CAP_VIDEO_OUTPUT: bv32 := 0x0000_0002
  const V4L2_CAP_VIDEO_OUTPUT_OVERLAY: bv32 := 0x0000_0200
  const V4L2_BUF_TYPE_VIDEO_OUTPUT: nat := 2
  const V4L2_BUF_TYPE_VIDEO_OUTPUT_OVERLAY: nat := 8

  /** The 4:2:0 tags the driver accepts. */
  predicate Is420Tag(tag: nat)
  {
    tag == IMGFMT_I420 || tag == IMGFMT_IYUV || tag == IMGFMT_YV12
  }

  /** The switch at the head of set_v4lfmt: the device format for a player
      tag, or None for every tag the driver refuses (set_v4lfmt then returns
      -1 before any ioctl). */
  function PixelFormat(tag: nat): (r: Option<nat>)
    ensures r.Some? <==> Is420Tag(tag) || tag == IMGFMT_422P
    ensures Is420Tag(tag) ==> r == Some(V4L2_PIX_FMT_YUV420)
    ensures tag == IMGFMT_422P ==> r == Some(V4L2_PIX_FMT_YUV422P)
  {
    if Is420Tag(tag) then Some(V4L2_PIX_FMT_YUV420)
    else if tag == IMGFMT_422P then Some(V4L2_PIX_FMT_YUV422P)
    else None
  }

  /** Horizontal and vertical chroma shifts (log2 of the subsampling). */
  datatype Shifts = Shifts(x: nat, y: nat)

  /** The switch in config that fixes chroma_x_shift and chroma_y_shift. */
  function ChromaShifts(tag: nat): (r: Option<Shifts>)
    ensures r.Some? <==> Is420Tag(tag) || tag == IMGFMT_422P
    ensures Is420Tag(tag) ==> r == Some(Shifts(1, 1))
    ensures tag == IMGFMT_422P ==> r == Some(Shifts(1, 0))
  {
    if Is420Tag(tag) then Some(Shifts(1, 1))
    else if tag == IMGFMT_422P then Some(Shifts(1, 0))
    else None
  }

  /** The subsampling a V4L2 planar format defines, independently of the
      player's tags: YUV420 halves both chroma axes, YUV422P halves only the
      width. */
  function Subsampling(pixelFormat: nat): (r: Option<Shifts>)
  {
    if pixelFormat == V4L2_PIX_FMT_YUV420 then Some(Shifts(1, 1))
    else if pixelFormat == V4L2_PIX_FMT_YUV422P then Some(Shifts(1, 0))
    else None
  }

  /** The two switches agree: config accepts exactly the tags set_v4lfmt
      accepts, and the shifts it picks are the subsampling of the device
      format set_v4lfmt asked for. */
  lemma ShiftsMatchDeviceFormat(tag: nat)
    ensures ChromaShifts(tag).Some? <==> PixelFormat(tag).Some?
    ensures PixelFormat(tag).Some? ==> ChromaShifts(tag) == Subsampling(PixelFormat(tag).value)
  {
  }

  /** The capability mask of get_v4ldev_cap: the device capabilities
      restricted to plain video output and video output overlay. */
  function OutputCaps(caps: bv32): (m: bv32)
    ensures m & !(V4L2_CAP_VIDEO_OUTPUT | V4L2_CAP_VIDEO_OUTPUT_OVERLAY) == 0
    ensures m & V4L2_CAP_VIDEO_OUTPUT == caps & V4L2_CAP_VIDEO_OUTPUT
    ensures m & V4L2_CAP_VIDEO_OUTPUT_OVERLAY == caps & V4L2_CAP_VIDEO_OUTPUT_OVERLAY
  {
    caps & (V4L2_CAP_VIDEO_OUTPUT | V4L2_CAP_VIDEO_OUTPUT_OVERLAY)
  }

  /** get_v4ldev_cap fails exactly when the mask is empty, that is when the
      device offers neither kind of video output. */
  lemma OutputCapsUsable(caps: bv32)
    ensures OutputCaps(caps) != 0 <==>
      (caps & V4L2_CAP_VIDEO_OUTPUT != 0 || caps & V4L2_CAP_VIDEO_OUTPUT_OVERLAY != 0)
  {
  }

  predicate HasOverlay(cap: bv32)
  {
    cap & V4L2_CAP_VIDEO_OUTPUT_OVERLAY != 0
  }

  /** The l, t, w, h sub-options (0 meaning "not given" for w and h). */
  datatype CropOptions = CropOptions(left: nat, top: nat, width: nat, height: nat)

  /** struct v4l2_crop as preinit fills it. */
  datatype Crop = Crop(bufType: nat, left: nat, top: nat, width: nat, height: nat)

  /** The crop block of preinit: explicit width and height win, zero falls
      back to the display resolution, left and top are copied, and the
      buffer type is the overlay one when the device has overlay. */
  function DefaultCrop(cap: bv32, opts: CropOptions, xres: nat, yres: nat): (c: Crop)
    ensures c.bufType == V4L2_BUF_TYPE_VIDEO_OUTPUT_OVERLAY <==> HasOverlay(cap)
    ensures c.bufType == V4L2_BUF_TYPE_VIDEO_OUTPUT <==> !HasOverlay(cap)
    ensures c.left == opts.left && c.top == opts.top
    ensures opts.width != 0 ==> c.width == opts.width
    ensures opts.width == 0 ==> c.width == xres
    ensures opts.height != 0 ==> c.height == opts.height
    ensures opts.height == 0 ==> c.height == yres
  {
    Crop(if HasOverlay(cap) then V4L2_BUF_TYPE_VIDEO_OUTPUT_OVERLAY else V4L2_BUF_TYPE_VIDEO_OUTPUT,
         opts.left, opts.top,
         if opts.width != 0 then opts.width else xres,
         if opts.height != 0 then opts.height else yres)
  }

  /** The display resolution only matters when an option is missing: with
      both sizes given, the crop does not depend on the display. */
  lemma ExplicitCropIgnoresDisplay(cap: bv32, opts: CropOptions, x1: nat, y1: nat, x2: nat, y2: nat)
    requires opts.width != 0 && opts.height != 0
    ensures DefaultCrop(cap, opts, x1, y1) == DefaultCrop(cap, opts, x2, y2)
  {
  }

  /** Feeding a crop back as options reproduces it, whatever the display:
      the rectangle is a fixed point of the defaulting. */
  lemma CropRoundTrip(cap: bv32, opts: CropOptions, xres: nat, yres: nat, x2: nat, y2: nat)
    requires xres != 0 && yres != 0
    ensures var c := DefaultCrop(cap, opts, xres, yres);
      DefaultCrop(cap, CropOptions(c.left, c.top, c.width, c.height), x2, y2) == c
  {
  }
}
