/** Where the three planes of a frame lie inside a mapped buffer
    (setup_yuv_ptr): luma at the base, U right after it, V right after U. */
module Layout {
  import opened Arith

  /** The negotiated frame: image_width, image_height and the chroma shifts. */
  datatype Format = Format(width: nat, height: nat, xShift: nat, yShift: nat)

  /** Bytes per chroma row; config stores it as stride_uv. */
  function ChromaWidth(f: Format): (r: nat)
  {
    Shr(f.width, f.xShift)
  }

  function ChromaHeight(f: Format): (r: nat)
  {
    Shr(f.height, f.yShift)
  }

  function LumaSize(f: Format): (r: nat)
  {
    f.width * f.height
  }

  function ChromaSize(f: Format): (r: nat)
  {
    ChromaWidth(f) * ChromaHeight(f)
  }

  /** Bytes the three planes occupy together. */
  function FrameSize(f: Format): (r: nat)
  {
    LumaSize(f) + 2 * ChromaSize(f)
  }

  /** The plane pointers image_y, image_u, image_v, as the index of the
      frame they point into and their offsets from that frame's base. */
  datatype Planes = Planes(frame: nat, y: nat, u: nat, v: nat)

  /** setup_yuv_ptr for the buffer with the given index. */
  function PlaneLayout(index: nat, f: Format): (p: Planes)
    ensures p.frame == index && p.y == 0
    ensures p.v + ChromaSize(f) == FrameSize(f)
  {
    Planes(index, 0, LumaSize(f), LumaSize(f) + ChromaSize(f))
  }

  /** The planes of format f fit at the pointers p in a buffer of n bytes:
      luma, then U, then V, none running into the next or past the end. */
  predicate PlanesFit(p: Planes, f: Format, n: nat)
  {
    p.y + LumaSize(f) <= p.u && p.u + ChromaSize(f) <= p.v && p.v + ChromaSize(f) <= n
  }

  predicate InLuma(p: Planes, f: Format, k: nat)
  {
    p.y <= k < p.y + LumaSize(f)
  }

  predicate InU(p: Planes, f: Format, k: nat)
  {
    p.u <= k < p.u + ChromaSize(f)
  }

  predicate InV(p: Planes, f: Format, k: nat)
  {
    p.v <= k < p.v + ChromaSize(f)
  }

  /** The three planes are pairwise disjoint and together cover exactly the
      first FrameSize(f) bytes of the buffer. */
  lemma PlanesTileFrame(index: nat, f: Format, k: nat)
    ensures var p := PlaneLayout(index, f);
      (InLuma(p, f, k) || InU(p, f, k) || InV(p, f, k)) <==> k < FrameSize(f)
    ensures var p := PlaneLayout(index, f);
      !(InLuma(p, f, k) && InU(p, f, k)) && !(InLuma(p, f, k) && InV(p, f, k)) &&
      !(InU(p, f, k) && InV(p, f, k))
  {
  }

  /** A chroma plane is never larger than the luma plane, so a frame needs at
      most three luma planes of room. */
  lemma ChromaNoLargerThanLuma(f: Format)
    ensures ChromaSize(f) <= LumaSize(f)
    ensures FrameSize(f) <= 3 * LumaSize(f)
  {
    ShrLe(f.width, f.xShift);
    ShrLe(f.height, f.yShift);
    MulLe2(ChromaWidth(f), ChromaHeight(f), f.width, f.height);
  }

  /** 4:2:0 with even sides: each chroma plane is a quarter of the luma
      plane and the frame is one and a half luma planes. */
  lemma Yuv420FrameSize(f: Format)
    requires f.xShift == 1 && f.yShift == 1
    requires f.width % 2 == 0 && f.height % 2 == 0
    ensures 4 * ChromaSize(f) == LumaSize(f)
    ensures 2 * FrameSize(f) == 3 * LumaSize(f)
  {
    ShrOneEven(f.width);
    ShrOneEven(f.height);
    var a, b := ChromaWidth(f), ChromaHeight(f);
    assert LumaSize(f) == (2 * a) * (2 * b);
    assert (2 * a) * (2 * b) == 4 * (a * b);
  }

  /** 4:2:2 with an even width: each chroma plane is half the luma plane and
      the frame is two luma planes. */
  lemma Yuv422FrameSize(f: Format)
    requires f.xShift == 1 && f.yShift == 0
    requires f.width % 2 == 0
    ensures 2 * ChromaSize(f) == LumaSize(f)
    ensures FrameSize(f) == 2 * LumaSize(f)
  {
    ShrOneEven(f.width);
    assert ChromaHeight(f) == f.height;
    var a := ChromaWidth(f);
    assert LumaSize(f) == (2 * a) * f.height;
    assert (2 * a) * f.height == 2 * (a * f.height);
  }

  /** The layout setup_yuv_ptr computes fits any buffer of FrameSize bytes
      or more. */
  lemma LayoutFits(index: nat, f: Format, n: nat)
    requires FrameSize(f) <= n
    ensures PlanesFit(PlaneLayout(index, f), f, n)
  {
  }

  /** config stores the new picture size before it knows whether
      buffers_init will succeed; when REQBUFS is then refused, the pointers
      keep the layout of the previous picture. That layout still holds the
      planes of a picture no wider and no taller with the same
      subsampling. */
  lemma SmallerPictureFits(index: nat, before: Format, f: Format, n: nat)
    requires FrameSize(before) <= n
    requires f.width <= before.width && f.height <= before.height
    requires f.xShift == before.xShift && f.yShift == before.yShift
    ensures PlanesFit(PlaneLayout(index, before), f, n)
  {
    MulLe2(f.width, f.height, before.width, before.height);
    ShrMono(f.width, before.width, f.xShift);
    ShrMono(f.height, before.height, f.yShift);
    MulLe2(ChromaWidth(f), ChromaHeight(f), ChromaWidth(before), ChromaHeight(before));
  }
}
