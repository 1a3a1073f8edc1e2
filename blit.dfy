/** The slice copy of draw_slice: row-by-row memcpy from three strided
    source planes into the plane regions of the current buffer. */
module Blit {
  import opened Arith
  import opened Layout

  /** The buffer after one memcpy of `row` to offset `off`, one byte at a
      time. */
  function Patch(d: seq<bv8>, off: nat, row: seq<bv8>): (r: seq<bv8>)
    requires off + |row| <= |d|
    ensures |r| == |d|
    decreases |row|
  {
    if |row| == 0 then d else Patch(d[off := row[0]], off + 1, row[1..])
  }

  /** After a memcpy, a byte inside the copied range holds the matching byte
      of the row and every other byte is unchanged. */
  lemma {:induction false} PatchAt(d: seq<bv8>, off: nat, row: seq<bv8>, k: nat)
    requires off + |row| <= |d| && k < |d|
    ensures Patch(d, off, row)[k] == if off <= k < off + |row| then row[k - off] else d[k]
    decreases |row|
  {
    if |row| > 0 {
      PatchAt(d[off := row[0]], off + 1, row[1..], k);
    }
  }

  /** memcpy into a mapped buffer: exactly the bytes of `row` change. */
  method MemCpy(dst: array<bv8>, off: nat, row: seq<bv8>)
    requires off + |row| <= dst.Length
    modifies dst
    ensures dst[..] == Patch(old(dst[..]), off, row)
  {
    forall j | 0 <= j < |row| {
      dst[off + j] := row[j];
    }
    forall k | 0 <= k < dst.Length
      ensures dst[k] == Patch(old(dst[..]), off, row)[k]
    {
      PatchAt(old(dst[..]), off, row, k);
    }
  }

  /** One plane's share of a slice: the first destination row's offset and
      the distance between destination rows, the source plane and the
      distance between its rows, and the bytes copied per row. */
  datatype RowCopy = RowCopy(dst: nat, dstStride: nat, src: seq<bv8>, srcStride: nat, width: nat)

  function RowStart(c: RowCopy, i: nat): (r: nat)
  {
    c.dst + c.dstStride * i
  }

  function SrcStart(c: RowCopy, i: nat): (r: nat)
  {
    c.srcStride * i
  }

  /** The first `rows` rows fit a buffer of n bytes and the source plane,
      and no destination row runs into the next one. */
  ghost predicate Fits(c: RowCopy, rows: nat, n: nat)
  {
    && c.width <= c.dstStride
    && (forall i :: 0 <= i < rows ==> RowStart(c, i) + c.width <= n)
    && (forall i :: 0 <= i < rows ==> SrcStart(c, i) + c.width <= |c.src|)
  }

  function SrcRow(c: RowCopy, i: nat): (r: seq<bv8>)
    requires SrcStart(c, i) + c.width <= |c.src|
  {
    c.src[SrcStart(c, i)..SrcStart(c, i) + c.width]
  }

  /** Byte j of a source row is byte SrcStart + j of the source plane. */
  lemma SrcRowAt(c: RowCopy, i: nat, j: nat)
    requires SrcStart(c, i) + c.width <= |c.src| && j < c.width
    ensures SrcRow(c, i)[j] == c.src[SrcStart(c, i) + j]
  {
  }

  /** Byte k is in one of the first `rows` destination rows. */
  ghost predicate InRows(c: RowCopy, rows: nat, k: nat)
  {
    exists i :: 0 <= i < rows && RowStart(c, i) <= k < RowStart(c, i) + c.width
  }

  /** The buffer after the first `rows` iterations of a one-plane row loop. */
  function CopyRows(d: seq<bv8>, c: RowCopy, rows: nat): (r: seq<bv8>)
    requires Fits(c, rows, |d|)
    ensures |r| == |d|
  {
    if rows == 0 then d
    else Patch(CopyRows(d, c, rows - 1), RowStart(c, rows - 1), SrcRow(c, rows - 1))
  }

  /** The buffer after the first `rows` iterations of the chroma loop, which
      copies one U row and then one V row per iteration. */
  function CopyRowPairs(d: seq<bv8>, cu: RowCopy, cv: RowCopy, rows: nat): (r: seq<bv8>)
    requires Fits(cu, rows, |d|) && Fits(cv, rows, |d|)
    ensures |r| == |d|
  {
    if rows == 0 then d
    else
      var withU := Patch(CopyRowPairs(d, cu, cv, rows - 1), RowStart(cu, rows - 1), SrcRow(cu, rows - 1));
      Patch(withU, RowStart(cv, rows - 1), SrcRow(cv, rows - 1))
  }

  /** Stepping the pointers by their strides reaches the next row. */
  lemma Step(c: RowCopy, i: nat)
    ensures RowStart(c, i + 1) == RowStart(c, i) + c.dstStride
    ensures SrcStart(c, i + 1) == SrcStart(c, i) + c.srcStride
  {
  }

  /** The luma loop of draw_slice: memcpy `rows` rows, stepping the source
      and destination pointers by their strides. */
  method CopyRowsInPlace(buf: array<bv8>, c: RowCopy, rows: nat)
    requires Fits(c, rows, buf.Length)
    modifies buf
    ensures buf[..] == CopyRows(old(buf[..]), c, rows)
  {
    ghost var d := buf[..];
    var src, dst := 0, c.dst;
    var i := 0;
    while i < rows
      invariant i <= rows && dst == RowStart(c, i) && src == SrcStart(c, i)
      invariant Fits(c, i, |d|) && buf[..] == CopyRows(d, c, i)
    {
      assert Fits(c, i + 1, |d|);
      MemCpy(buf, dst, SrcRow(c, i));
      assert buf[..] == CopyRows(d, c, i + 1);
      Step(c, i);
      src := src + c.srcStride;
      dst := dst + c.dstStride;
      i := i + 1;
    }
  }

  /** One iteration of the chroma loop: memcpy U row i, then V row i. */
  method CopyRowPair(buf: array<bv8>, cu: RowCopy, cv: RowCopy, i: nat, dstu: nat, dstv: nat, ghost d: seq<bv8>)
    requires |d| == buf.Length && dstu == RowStart(cu, i) && dstv == RowStart(cv, i)
    requires Fits(cu, i, |d|) && Fits(cv, i, |d|) && Fits(cu, i + 1, |d|) && Fits(cv, i + 1, |d|)
    requires buf[..] == CopyRowPairs(d, cu, cv, i)
    modifies buf
    ensures buf[..] == CopyRowPairs(d, cu, cv, i + 1)
  {
    MemCpy(buf, dstu, SrcRow(cu, i));
    ghost var withU := buf[..];
    MemCpy(buf, dstv, SrcRow(cv, i));
    assert withU == Patch(CopyRowPairs(d, cu, cv, i), RowStart(cu, i), SrcRow(cu, i));
  }

  /** The chroma loop of draw_slice: per row, memcpy one U row and then one
      V row, stepping all four pointers. */
  method CopyRowPairsInPlace(buf: array<bv8>, cu: RowCopy, cv: RowCopy, rows: nat)
    requires Fits(cu, rows, buf.Length) && Fits(cv, rows, buf.Length)
    modifies buf
    ensures buf[..] == CopyRowPairs(old(buf[..]), cu, cv, rows)
  {
    ghost var d := buf[..];
    var srcu, dstu := 0, cu.dst;
    var srcv, dstv := 0, cv.dst;
    var i := 0;
    while i < rows
      invariant i <= rows
      invariant dstu == RowStart(cu, i) && srcu == SrcStart(cu, i)
      invariant dstv == RowStart(cv, i) && srcv == SrcStart(cv, i)
      invariant Fits(cu, i, |d|) && Fits(cv, i, |d|) && buf[..] == CopyRowPairs(d, cu, cv, i)
    {
      assert Fits(cu, i + 1, |d|) && Fits(cv, i + 1, |d|);
      CopyRowPair(buf, cu, cv, i, dstu, dstv, d);
      Step(cu, i);
      Step(cv, i);
      srcu, dstu := srcu + cu.srcStride, dstu + cu.dstStride;
      srcv, dstv := srcv + cv.srcStride, dstv + cv.dstStride;
      i := i + 1;
    }
  }

  /** Row i ends before row i' starts when i < i'. */
  lemma RowBefore(c: RowCopy, i: nat, i': nat)
    requires i < i' && c.width <= c.dstStride
    ensures RowStart(c, i) + c.width <= RowStart(c, i')
  {
    MulLe(c.dstStride, i + 1, i');
  }

  lemma RowStartFrom(c: RowCopy, i: nat)
    ensures c.dst <= RowStart(c, i)
  {
    MulLe(c.dstStride, 0, i);
  }

  /** A byte before the last copied row keeps the value the earlier
      iterations left. */
  lemma RowKept(d: seq<bv8>, c: RowCopy, rows: nat, k: nat)
    requires Fits(c, rows, |d|) && 0 < rows && k < RowStart(c, rows - 1)
    ensures CopyRows(d, c, rows)[k] == CopyRows(d, c, rows - 1)[k]
  {
    PatchAt(CopyRows(d, c, rows - 1), RowStart(c, rows - 1), SrcRow(c, rows - 1), k);
  }

  /** An earlier row lies before the last one, so the last iteration
      leaves it alone. */
  lemma RowEarlier(d: seq<bv8>, c: RowCopy, rows: nat, i: nat, j: nat)
    requires Fits(c, rows, |d|) && i + 1 < rows && j < c.width
    ensures CopyRows(d, c, rows)[RowStart(c, i) + j] == CopyRows(d, c, rows - 1)[RowStart(c, i) + j]
  {
    RowBefore(c, i, rows - 1);
    RowKept(d, c, rows, RowStart(c, i) + j);
  }

  /** The last iteration writes its row. */
  lemma RowLast(d: seq<bv8>, c: RowCopy, rows: nat, i: nat, j: nat)
    requires Fits(c, rows, |d|) && i + 1 == rows && j < c.width
    ensures CopyRows(d, c, rows)[RowStart(c, i) + j] == c.src[SrcStart(c, i) + j]
  {
    assert RowStart(c, rows - 1) == RowStart(c, i);
    PatchAt(CopyRows(d, c, rows - 1), RowStart(c, rows - 1), SrcRow(c, rows - 1), RowStart(c, i) + j);
    assert CopyRows(d, c, rows)[RowStart(c, i) + j] == SrcRow(c, i)[j];
    SrcRowAt(c, i, j);
  }

  /** Byte j of row i holds byte j of source row i. */
  lemma {:induction false} CopyRowsWritten(d: seq<bv8>, c: RowCopy, rows: nat, i: nat, j: nat)
    requires Fits(c, rows, |d|) && i < rows && j < c.width
    ensures CopyRows(d, c, rows)[RowStart(c, i) + j] == c.src[SrcStart(c, i) + j]
  {
    if i + 1 < rows {
      RowEarlier(d, c, rows, i, j);
      CopyRowsWritten(d, c, rows - 1, i, j);
    } else {
      RowLast(d, c, rows, i, j);
    }
  }

  /** A byte outside every copied row keeps its value. */
  lemma {:induction false} CopyRowsKept(d: seq<bv8>, c: RowCopy, rows: nat, k: nat)
    requires Fits(c, rows, |d|) && k < |d| && !InRows(c, rows, k)
    ensures CopyRows(d, c, rows)[k] == d[k]
  {
    if rows > 0 {
      assert !InRows(c, rows - 1, k);
      CopyRowsKept(d, c, rows - 1, k);
      PatchAt(CopyRows(d, c, rows - 1), RowStart(c, rows - 1), SrcRow(c, rows - 1), k);
    }
  }

  /** Every U row lies before the first V row. */
  ghost predicate Precedes(cu: RowCopy, cv: RowCopy, rows: nat)
  {
    forall i :: 0 <= i < rows ==> RowStart(cu, i) + cu.width <= cv.dst
  }

  /** Byte k after the last chroma iteration: from the V row if it lies
      there, else from the U row if it lies there, else as before. */
  lemma PairAt(d: seq<bv8>, cu: RowCopy, cv: RowCopy, rows: nat, k: nat)
    requires Fits(cu, rows, |d|) && Fits(cv, rows, |d|) && 0 < rows && k < |d|
    ensures var u, v := RowStart(cu, rows - 1), RowStart(cv, rows - 1);
      CopyRowPairs(d, cu, cv, rows)[k] ==
        if v <= k < v + cv.width then SrcRow(cv, rows - 1)[k - v]
        else if u <= k < u + cu.width then SrcRow(cu, rows - 1)[k - u]
        else CopyRowPairs(d, cu, cv, rows - 1)[k]
  {
    var prev := CopyRowPairs(d, cu, cv, rows - 1);
    var withU := Patch(prev, RowStart(cu, rows - 1), SrcRow(cu, rows - 1));
    PatchAt(withU, RowStart(cv, rows - 1), SrcRow(cv, rows - 1), k);
    PatchAt(prev, RowStart(cu, rows - 1), SrcRow(cu, rows - 1), k);
  }

  /** A byte outside both rows of the last chroma iteration keeps the value
      the earlier iterations left. */
  lemma PairKept(d: seq<bv8>, cu: RowCopy, cv: RowCopy, rows: nat, k: nat)
    requires Fits(cu, rows, |d|) && Fits(cv, rows, |d|) && 0 < rows && k < |d|
    requires !(RowStart(cu, rows - 1) <= k < RowStart(cu, rows - 1) + cu.width)
    requires !(RowStart(cv, rows - 1) <= k < RowStart(cv, rows - 1) + cv.width)
    ensures CopyRowPairs(d, cu, cv, rows)[k] == CopyRowPairs(d, cu, cv, rows - 1)[k]
  {
    PairAt(d, cu, cv, rows, k);
  }

  /** An earlier U row lies before both rows of the last iteration. */
  lemma PairKeptU(d: seq<bv8>, cu: RowCopy, cv: RowCopy, rows: nat, i: nat, j: nat)
    requires Fits(cu, rows, |d|) && Fits(cv, rows, |d|) && Precedes(cu, cv, rows)
    requires i + 1 < rows && j < cu.width
    ensures CopyRowPairs(d, cu, cv, rows)[RowStart(cu, i) + j] == CopyRowPairs(d, cu, cv, rows - 1)[RowStart(cu, i) + j]
  {
    RowBefore(cu, i, rows - 1);
    assert RowStart(cu, i) + cu.width <= cv.dst;
    RowStartFrom(cv, rows - 1);
    PairKept(d, cu, cv, rows, RowStart(cu, i) + j);
  }

  /** An earlier V row lies after the last U row and before the last V
      row. */
  lemma PairKeptV(d: seq<bv8>, cu: RowCopy, cv: RowCopy, rows: nat, i: nat, j: nat)
    requires Fits(cu, rows, |d|) && Fits(cv, rows, |d|) && Precedes(cu, cv, rows)
    requires i + 1 < rows && j < cv.width
    ensures CopyRowPairs(d, cu, cv, rows)[RowStart(cv, i) + j] == CopyRowPairs(d, cu, cv, rows - 1)[RowStart(cv, i) + j]
  {
    RowBefore(cv, i, rows - 1);
    assert RowStart(cu, rows - 1) + cu.width <= cv.dst;
    RowStartFrom(cv, i);
    PairKept(d, cu, cv, rows, RowStart(cv, i) + j);
  }

  /** The last chroma iteration writes its U row, which lies before its V
      row. */
  lemma PairLastU(d: seq<bv8>, cu: RowCopy, cv: RowCopy, rows: nat, i: nat, j: nat)
    requires Fits(cu, rows, |d|) && Fits(cv, rows, |d|) && Precedes(cu, cv, rows)
    requires i + 1 == rows && j < cu.width
    ensures CopyRowPairs(d, cu, cv, rows)[RowStart(cu, i) + j] == cu.src[SrcStart(cu, i) + j]
  {
    assert RowStart(cu, i) + cu.width <= cv.dst;
    RowStartFrom(cv, i);
    assert RowStart(cu, rows - 1) == RowStart(cu, i) && RowStart(cv, rows - 1) == RowStart(cv, i);
    PairAt(d, cu, cv, rows, RowStart(cu, i) + j);
    assert CopyRowPairs(d, cu, cv, rows)[RowStart(cu, i) + j] == SrcRow(cu, i)[j];
    SrcRowAt(cu, i, j);
  }

  /** The last chroma iteration writes its V row. */
  lemma PairLastV(d: seq<bv8>, cu: RowCopy, cv: RowCopy, rows: nat, i: nat, j: nat)
    requires Fits(cu, rows, |d|) && Fits(cv, rows, |d|) && i + 1 == rows && j < cv.width
    ensures CopyRowPairs(d, cu, cv, rows)[RowStart(cv, i) + j] == cv.src[SrcStart(cv, i) + j]
  {
    assert RowStart(cv, rows - 1) == RowStart(cv, i);
    PairAt(d, cu, cv, rows, RowStart(cv, i) + j);
    assert CopyRowPairs(d, cu, cv, rows)[RowStart(cv, i) + j] == SrcRow(cv, i)[j];
    SrcRowAt(cv, i, j);
  }

  /** The chroma loop leaves byte j of U row i holding byte j of source U
      row i. */
  lemma {:induction false} CopyRowPairsWrittenU(d: seq<bv8>, cu: RowCopy, cv: RowCopy, rows: nat, i: nat, j: nat)
    requires Fits(cu, rows, |d|) && Fits(cv, rows, |d|) && Precedes(cu, cv, rows)
    requires i < rows && j < cu.width
    ensures CopyRowPairs(d, cu, cv, rows)[RowStart(cu, i) + j] == cu.src[SrcStart(cu, i) + j]
  {
    if i + 1 < rows {
      var at := RowStart(cu, i) + j;
      PairKeptU(d, cu, cv, rows, i, j);
      CopyRowPairsWrittenU(d, cu, cv, rows - 1, i, j);
      assert CopyRowPairs(d, cu, cv, rows)[at] == CopyRowPairs(d, cu, cv, rows - 1)[at];
    } else {
      PairLastU(d, cu, cv, rows, i, j);
    }
  }

  /** The chroma loop leaves byte j of V row i holding byte j of source V
      row i. */
  lemma {:induction false} CopyRowPairsWrittenV(d: seq<bv8>, cu: RowCopy, cv: RowCopy, rows: nat, i: nat, j: nat)
    requires Fits(cu, rows, |d|) && Fits(cv, rows, |d|) && Precedes(cu, cv, rows)
    requires i < rows && j < cv.width
    ensures CopyRowPairs(d, cu, cv, rows)[RowStart(cv, i) + j] == cv.src[SrcStart(cv, i) + j]
  {
    if i + 1 < rows {
      PairKeptV(d, cu, cv, rows, i, j);
      CopyRowPairsWrittenV(d, cu, cv, rows - 1, i, j);
    } else {
      PairLastV(d, cu, cv, rows, i, j);
    }
  }

  /** The chroma loop leaves every byte outside its U and V rows alone. */
  lemma {:induction false} CopyRowPairsKept(d: seq<bv8>, cu: RowCopy, cv: RowCopy, rows: nat, k: nat)
    requires Fits(cu, rows, |d|) && Fits(cv, rows, |d|) && k < |d|
    requires !InRows(cu, rows, k) && !InRows(cv, rows, k)
    ensures CopyRowPairs(d, cu, cv, rows)[k] == d[k]
  {
    if rows > 0 {
      assert !(RowStart(cu, rows - 1) <= k < RowStart(cu, rows - 1) + cu.width);
      assert !(RowStart(cv, rows - 1) <= k < RowStart(cv, rows - 1) + cv.width);
      PairKept(d, cu, cv, rows, k);
      assert !InRows(cu, rows - 1, k) && !InRows(cv, rows - 1, k);
      CopyRowPairsKept(d, cu, cv, rows - 1, k);
    }
  }

  /** A byte before the first destination row is in none of the rows. */
  lemma RowsFrom(c: RowCopy, rows: nat, k: nat)
    requires k < c.dst
    ensures !InRows(c, rows, k)
  {
    forall i | 0 <= i < rows
      ensures k < RowStart(c, i)
    {
      RowStartFrom(c, i);
    }
  }

  /** The source planes of a slice and their strides (srcimg[] and
      stride[] of draw_slice). */
  datatype Source = Source(y: seq<bv8>, u: seq<bv8>, v: seq<bv8>,
                           strideY: nat, strideU: nat, strideV: nat)

  /** The w x h rectangle at (x, y) that a slice covers in the picture. */
  datatype Rect = Rect(x: nat, y: nat, w: nat, h: nat)

  /** The luma row loop: rows of w bytes, image_width apart, starting at
      image_y + image_width * y + x. */
  function LumaCopy(f: Format, p: Planes, src: Source, r: Rect): (res: RowCopy)
  {
    RowCopy(p.y + f.width * r.y + r.x, f.width, src.y, src.strideY, r.w)
  }

  /** The U half of the chroma loop: rows of w >> xs bytes, stride_uv apart,
      starting at image_u + stride_uv * (y >> ys) + (x >> xs). */
  function UCopy(f: Format, p: Planes, src: Source, r: Rect): (res: RowCopy)
  {
    RowCopy(p.u + ChromaWidth(f) * Shr(r.y, f.yShift) + Shr(r.x, f.xShift), ChromaWidth(f),
            src.u, src.strideU, Shr(r.w, f.xShift))
  }

  /** The V half of the chroma loop, the same rows inside the V plane. */
  function VCopy(f: Format, p: Planes, src: Source, r: Rect): (res: RowCopy)
  {
    RowCopy(p.v + ChromaWidth(f) * Shr(r.y, f.yShift) + Shr(r.x, f.xShift), ChromaWidth(f),
            src.v, src.strideV, Shr(r.w, f.xShift))
  }

  /** Iterations of the chroma loop: h >> ys. */
  function ChromaRows(f: Format, r: Rect): (res: nat)
  {
    Shr(r.h, f.yShift)
  }

  /** What draw_slice relies on without checking it: the three planes of
      the format fitting at the plane pointers in a buffer of n bytes, a
      rectangle inside the picture, and source planes long enough for every
      row it reads. */
  ghost predicate SliceFits(f: Format, p: Planes, src: Source, r: Rect, n: nat)
  {
    && PlanesFit(p, f, n)
    && r.x + r.w <= f.width && r.y + r.h <= f.height
    && (r.h > 0 ==> src.strideY * (r.h - 1) + r.w <= |src.y|)
    && (ChromaRows(f, r) > 0 ==> src.strideU * (ChromaRows(f, r) - 1) + Shr(r.w, f.xShift) <= |src.u|)
    && (ChromaRows(f, r) > 0 ==> src.strideV * (ChromaRows(f, r) - 1) + Shr(r.w, f.xShift) <= |src.v|)
  }

  lemma LumaRowFits(f: Format, p: Planes, src: Source, r: Rect, n: nat, i: nat)
    requires SliceFits(f, p, src, r, n) && i < r.h
    ensures RowStart(LumaCopy(f, p, src, r), i) + r.w <= p.y + LumaSize(f)
    ensures SrcStart(LumaCopy(f, p, src, r), i) + r.w <= |src.y|
  {
    RowBound(f.width, r.y, i, f.height);
    MulLe(src.strideY, i, r.h - 1);
  }

  /** The chroma rectangle: (x >> xs) + (w >> xs) <= stride_uv and
      (y >> ys) + (h >> ys) <= height >> ys. */
  lemma ChromaRectFits(f: Format, r: Rect)
    requires r.x + r.w <= f.width && r.y + r.h <= f.height
    ensures Shr(r.x, f.xShift) + Shr(r.w, f.xShift) <= ChromaWidth(f)
    ensures Shr(r.y, f.yShift) + ChromaRows(f, r) <= ChromaHeight(f)
  {
    ShrAddLe(r.x, r.w, f.xShift);
    ShrMono(r.x + r.w, f.width, f.xShift);
    ShrAddLe(r.y, r.h, f.yShift);
    ShrMono(r.y + r.h, f.height, f.yShift);
  }

  lemma ChromaRowFits(f: Format, p: Planes, src: Source, r: Rect, n: nat, i: nat)
    requires SliceFits(f, p, src, r, n) && i < ChromaRows(f, r)
    ensures RowStart(UCopy(f, p, src, r), i) + Shr(r.w, f.xShift) <= p.u + ChromaSize(f)
    ensures RowStart(VCopy(f, p, src, r), i) + Shr(r.w, f.xShift) <= p.v + ChromaSize(f)
    ensures SrcStart(UCopy(f, p, src, r), i) + Shr(r.w, f.xShift) <= |src.u|
    ensures SrcStart(VCopy(f, p, src, r), i) + Shr(r.w, f.xShift) <= |src.v|
  {
    ChromaRectFits(f, r);
    RowBound(ChromaWidth(f), Shr(r.y, f.yShift), i, ChromaHeight(f));
    MulLe(src.strideU, i, ChromaRows(f, r) - 1);
    MulLe(src.strideV, i, ChromaRows(f, r) - 1);
  }

  /** Under SliceFits every luma row ends inside the luma plane, every U row
      inside the U plane and every V row inside the V plane, and all rows
      can be read from their source planes. */
  lemma SliceCopiesFit(f: Format, p: Planes, src: Source, r: Rect, n: nat)
    requires SliceFits(f, p, src, r, n)
    ensures Fits(LumaCopy(f, p, src, r), r.h, n)
    ensures Fits(UCopy(f, p, src, r), ChromaRows(f, r), n)
    ensures Fits(VCopy(f, p, src, r), ChromaRows(f, r), n)
    ensures forall i :: 0 <= i < r.h ==> RowStart(LumaCopy(f, p, src, r), i) + r.w <= p.u
    ensures forall i :: 0 <= i < ChromaRows(f, r) ==>
      RowStart(UCopy(f, p, src, r), i) + Shr(r.w, f.xShift) <= p.u + ChromaSize(f)
    ensures forall i :: 0 <= i < ChromaRows(f, r) ==>
      RowStart(VCopy(f, p, src, r), i) + Shr(r.w, f.xShift) <= p.v + ChromaSize(f)
    ensures Precedes(UCopy(f, p, src, r), VCopy(f, p, src, r), ChromaRows(f, r))
    ensures p.u <= UCopy(f, p, src, r).dst && p.v <= VCopy(f, p, src, r).dst
  {
    ChromaRectFits(f, r);
    forall i | 0 <= i < r.h
      ensures RowStart(LumaCopy(f, p, src, r), i) + r.w <= p.u
      ensures SrcStart(LumaCopy(f, p, src, r), i) + r.w <= |src.y|
    {
      LumaRowFits(f, p, src, r, n, i);
    }
    forall i | 0 <= i < ChromaRows(f, r)
      ensures RowStart(UCopy(f, p, src, r), i) + Shr(r.w, f.xShift) <= p.u + ChromaSize(f)
      ensures RowStart(VCopy(f, p, src, r), i) + Shr(r.w, f.xShift) <= p.v + ChromaSize(f)
      ensures SrcStart(UCopy(f, p, src, r), i) + Shr(r.w, f.xShift) <= |src.u|
      ensures SrcStart(VCopy(f, p, src, r), i) + Shr(r.w, f.xShift) <= |src.v|
    {
      ChromaRowFits(f, p, src, r, n, i);
    }
    MulLe(ChromaWidth(f), 0, Shr(r.y, f.yShift));
  }

  /** The buffer after draw_slice: the luma loop, then the chroma loop. */
  function SliceResult(d: seq<bv8>, f: Format, p: Planes, src: Source, r: Rect): (res: seq<bv8>)
    requires SliceFits(f, p, src, r, |d|)
    ensures |res| == |d|
  {
    SliceCopiesFit(f, p, src, r, |d|);
    CopyRowPairs(CopyRows(d, LumaCopy(f, p, src, r), r.h),
                 UCopy(f, p, src, r), VCopy(f, p, src, r), ChromaRows(f, r))
  }

  /** Luma byte j of slice row i lands at image_width * y + image_width * i + x + j of
      the luma plane and comes from stride[0] * i + j of the source. */
  lemma SliceWritesLuma(d: seq<bv8>, f: Format, p: Planes, src: Source, r: Rect, i: nat, j: nat)
    requires SliceFits(f, p, src, r, |d|) && i < r.h && j < r.w
    ensures var at := p.y + Mul(f.width, r.y) + Mul(f.width, i) + r.x + j;
      && at < |d| && Mul(src.strideY, i) + j < |src.y|
      && SliceResult(d, f, p, src, r)[at] == src.y[Mul(src.strideY, i) + j]
  {
    SliceCopiesFit(f, p, src, r, |d|);
    var lc, uc, vc := LumaCopy(f, p, src, r), UCopy(f, p, src, r), VCopy(f, p, src, r);
    var k := RowStart(lc, i) + j;
    var mid := CopyRows(d, lc, r.h);
    CopyRowsWritten(d, lc, r.h, i, j);
    assert mid[k] == src.y[Mul(src.strideY, i) + j];
    RowsFrom(uc, ChromaRows(f, r), k);
    RowsFrom(vc, ChromaRows(f, r), k);
    CopyRowPairsKept(mid, uc, vc, ChromaRows(f, r), k);
    assert SliceResult(d, f, p, src, r) == CopyRowPairs(mid, uc, vc, ChromaRows(f, r));
  }

  /** Chroma byte j of chroma row i lands at stride_uv * (y >> ys) +
      stride_uv * i + (x >> xs) + j of the U plane and of the V plane, and comes from
      stride[1] * i + j and stride[2] * i + j of the sources. */
  lemma SliceWritesChroma(d: seq<bv8>, f: Format, p: Planes, src: Source, r: Rect, i: nat, j: nat)
    requires SliceFits(f, p, src, r, |d|) && i < ChromaRows(f, r) && j < Shr(r.w, f.xShift)
    ensures var at := Mul(ChromaWidth(f), Shr(r.y, f.yShift)) + Mul(ChromaWidth(f), i) + Shr(r.x, f.xShift) + j;
      && p.u + at < |d| && p.v + at < |d|
      && Mul(src.strideU, i) + j < |src.u| && Mul(src.strideV, i) + j < |src.v|
      && SliceResult(d, f, p, src, r)[p.u + at] == src.u[Mul(src.strideU, i) + j]
      && SliceResult(d, f, p, src, r)[p.v + at] == src.v[Mul(src.strideV, i) + j]
  {
    SliceWritesU(d, f, p, src, r, i, j);
    SliceWritesV(d, f, p, src, r, i, j);
  }

  /** The U half of SliceWritesChroma, stated on the copy descriptor. */
  lemma SliceWritesU(d: seq<bv8>, f: Format, p: Planes, src: Source, r: Rect, i: nat, j: nat)
    requires SliceFits(f, p, src, r, |d|) && i < ChromaRows(f, r) && j < Shr(r.w, f.xShift)
    ensures var uc := UCopy(f, p, src, r);
      && RowStart(uc, i) + j < |d| && SrcStart(uc, i) + j < |src.u|
      && RowStart(uc, i) == p.u + Mul(ChromaWidth(f), Shr(r.y, f.yShift)) + Mul(ChromaWidth(f), i) + Shr(r.x, f.xShift)
      && SrcStart(uc, i) == Mul(src.strideU, i)
      && SliceResult(d, f, p, src, r)[RowStart(uc, i) + j] == src.u[SrcStart(uc, i) + j]
  {
    SliceCopiesFit(f, p, src, r, |d|);
    var uc, vc := UCopy(f, p, src, r), VCopy(f, p, src, r);
    var mid := CopyRows(d, LumaCopy(f, p, src, r), r.h);
    assert SliceResult(d, f, p, src, r) == CopyRowPairs(mid, uc, vc, ChromaRows(f, r));
    CopyRowPairsWrittenU(mid, uc, vc, ChromaRows(f, r), i, j);
  }

  /** The V half of SliceWritesChroma, stated on the copy descriptor. */
  lemma SliceWritesV(d: seq<bv8>, f: Format, p: Planes, src: Source, r: Rect, i: nat, j: nat)
    requires SliceFits(f, p, src, r, |d|) && i < ChromaRows(f, r) && j < Shr(r.w, f.xShift)
    ensures var vc := VCopy(f, p, src, r);
      && RowStart(vc, i) + j < |d| && SrcStart(vc, i) + j < |src.v|
      && RowStart(vc, i) == p.v + Mul(ChromaWidth(f), Shr(r.y, f.yShift)) + Mul(ChromaWidth(f), i) + Shr(r.x, f.xShift)
      && SrcStart(vc, i) == Mul(src.strideV, i)
      && SliceResult(d, f, p, src, r)[RowStart(vc, i) + j] == src.v[SrcStart(vc, i) + j]
  {
    SliceCopiesFit(f, p, src, r, |d|);
    var uc, vc := UCopy(f, p, src, r), VCopy(f, p, src, r);
    var mid := CopyRows(d, LumaCopy(f, p, src, r), r.h);
    assert SliceResult(d, f, p, src, r) == CopyRowPairs(mid, uc, vc, ChromaRows(f, r));
    CopyRowPairsWrittenV(mid, uc, vc, ChromaRows(f, r), i, j);
  }

  /** Every byte outside the luma rows and the U and V rows of the slice
      keeps its value. */
  lemma SliceKeepsRest(d: seq<bv8>, f: Format, p: Planes, src: Source, r: Rect, k: nat)
    requires SliceFits(f, p, src, r, |d|) && k < |d|
    requires !InRows(LumaCopy(f, p, src, r), r.h, k)
    requires !InRows(UCopy(f, p, src, r), ChromaRows(f, r), k)
    requires !InRows(VCopy(f, p, src, r), ChromaRows(f, r), k)
    ensures SliceResult(d, f, p, src, r)[k] == d[k]
  {
    SliceCopiesFit(f, p, src, r, |d|);
    CopyRowsKept(d, LumaCopy(f, p, src, r), r.h, k);
    CopyRowPairsKept(CopyRows(d, LumaCopy(f, p, src, r), r.h),
                     UCopy(f, p, src, r), VCopy(f, p, src, r), ChromaRows(f, r), k);
  }

  /** The luma rows stay in the luma plane and the U and V rows in their
      own planes, so the three loops never write over each other and never
      leave the frame. */
  lemma SliceStaysInPlanes(f: Format, p: Planes, src: Source, r: Rect, n: nat, k: nat)
    requires SliceFits(f, p, src, r, n)
    ensures InRows(LumaCopy(f, p, src, r), r.h, k) ==> InLuma(p, f, k)
    ensures InRows(UCopy(f, p, src, r), ChromaRows(f, r), k) ==> InU(p, f, k)
    ensures InRows(VCopy(f, p, src, r), ChromaRows(f, r), k) ==> InV(p, f, k)
  {
    if InRows(LumaCopy(f, p, src, r), r.h, k) {
      LumaRowInPlane(f, p, src, r, n, k);
    }
    if InRows(UCopy(f, p, src, r), ChromaRows(f, r), k) {
      URowInPlane(f, p, src, r, n, k);
    }
    if InRows(VCopy(f, p, src, r), ChromaRows(f, r), k) {
      VRowInPlane(f, p, src, r, n, k);
    }
  }

  lemma LumaRowInPlane(f: Format, p: Planes, src: Source, r: Rect, n: nat, k: nat)
    requires SliceFits(f, p, src, r, n) && InRows(LumaCopy(f, p, src, r), r.h, k)
    ensures InLuma(p, f, k)
  {
    var lc := LumaCopy(f, p, src, r);
    var i :| 0 <= i < r.h && RowStart(lc, i) <= k < RowStart(lc, i) + lc.width;
    LumaRowFits(f, p, src, r, n, i);
    RowStartFrom(lc, i);
    var above: nat := f.width * r.y;
    assert p.y <= lc.dst == p.y + above + r.x;
    assert k < p.y + LumaSize(f) by {
      assert lc.width == r.w;
    }
  }

  lemma URowInPlane(f: Format, p: Planes, src: Source, r: Rect, n: nat, k: nat)
    requires SliceFits(f, p, src, r, n) && InRows(UCopy(f, p, src, r), ChromaRows(f, r), k)
    ensures InU(p, f, k)
  {
    var uc := UCopy(f, p, src, r);
    var i :| 0 <= i < ChromaRows(f, r) && RowStart(uc, i) <= k < RowStart(uc, i) + uc.width;
    ChromaRowFits(f, p, src, r, n, i);
    RowStartFrom(uc, i);
  }

  lemma VRowInPlane(f: Format, p: Planes, src: Source, r: Rect, n: nat, k: nat)
    requires SliceFits(f, p, src, r, n) && InRows(VCopy(f, p, src, r), ChromaRows(f, r), k)
    ensures InV(p, f, k)
  {
    var vc := VCopy(f, p, src, r);
    var i :| 0 <= i < ChromaRows(f, r) && RowStart(vc, i) <= k < RowStart(vc, i) + vc.width;
    ChromaRowFits(f, p, src, r, n, i);
    RowStartFrom(vc, i);
  }
}
