/** The flag tests of get_image and draw_image (the direct-rendering
    handshake with the player). Flag values follow MPlayer's mp_image.h. */
module Images {
  import opened Wrappers
  import opened Layout

  const MP_IMGFLAG_PLANAR: bv32 := 0x0100
  const MP_IMGFLAG_DRAW_CALLBACK: bv32 := 0x1000
  const MP_IMGFLAG_DIRECT: bv32 := 0x2000

  /** What get_image writes back into the player's image: its flags, its
      three plane pointers and its three strides. */
  datatype DirectImage = DirectImage(flags: bv32, planes: Planes,
                                     strideY: nat, strideU: nat, strideV: nat)

  /** get_image: a non-planar image is refused (VO_FALSE, None); a planar one
      is handed the current plane pointers with the luma and chroma strides
      and is marked DIRECT. */
  function GetImage(flags: bv32, p: Planes, lumaStride: nat, chromaStride: nat): (r: Option<DirectImage>)
    ensures r.Some? <==> flags & MP_IMGFLAG_PLANAR != 0
    ensures r.Some? ==> r.value.flags & MP_IMGFLAG_DIRECT != 0
    ensures r.Some? ==> r.value.flags & !MP_IMGFLAG_DIRECT == flags & !MP_IMGFLAG_DIRECT
    ensures r.Some? ==> r.value.planes == p && r.value.strideY == lumaStride
    ensures r.Some? ==> r.value.strideU == chromaStride && r.value.strideV == chromaStride
  {
    if flags & MP_IMGFLAG_PLANAR == 0 then None
    else Some(DirectImage(flags | MP_IMGFLAG_DIRECT, p, lumaStride, chromaStride, chromaStride))
  }

  /** draw_image copies the picture only when the player neither rendered it
      directly nor already sent it slice by slice. */
  predicate DrawImageBlits(flags: bv32)
  {
    flags & (MP_IMGFLAG_DIRECT | MP_IMGFLAG_DRAW_CALLBACK) == 0
  }

  /** An image that went through get_image is never copied a second time by
      draw_image: the DIRECT flag get_image sets turns the copy off. */
  lemma DirectImageNotBlitted(flags: bv32, p: Planes, lumaStride: nat, chromaStride: nat)
    requires flags & MP_IMGFLAG_PLANAR != 0
    ensures GetImage(flags, p, lumaStride, chromaStride).Some?
    ensures !DrawImageBlits(GetImage(flags, p, lumaStride, chromaStride).value.flags)
  {
  }

  /** Either flag alone suppresses the copy. */
  lemma DrawImageBlitsIff(flags: bv32)
    ensures DrawImageBlits(flags) <==>
      flags & MP_IMGFLAG_DIRECT == 0 && flags & MP_IMGFLAG_DRAW_CALLBACK == 0
  {
  }
}
