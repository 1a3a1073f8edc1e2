/** The v4lout video output driver: its globals as the fields of one
    session, and set_v4lfmt, buffers_init, config, draw_slice, draw_image,
    get_image and flip_page as methods over them. The device is a source
    of answers passed in by the caller; every call the driver makes on it
    is appended to a ghost log. */
module V4lOut {
  import opened Wrappers
  import opened Arith
  import opened Negotiation
  import opened Layout
  import opened Blit
  import Images
  import opened Protocol

  /** An entry of the frame table: never mapped (NULL), MAP_FAILED, or a
      mapping of a device buffer. */
  datatype Mapping = Unmapped | MapFailed | Mapped(mem: array<bv8>)

  /** What buffers_init leaves in one entry of the frame table: the old
      entry where it did not get to mmap (r is None), MAP_FAILED where mmap
      failed, and a mapping of the buffer's length where it succeeded. */
  predicate Installed(now: Mapping, before: Mapping, r: Option<bool>, b: BufAnswer)
  {
    match r
    case None => now == before
    case Some(false) => now == MapFailed
    case Some(true) => now.Mapped? && now.mem.Length == b.length
  }

  /** The entry the loop of buffers_init leaves in frame[j] when it stopped
      at iteration s of n: the loop invariant's form of LoopMapResult, which
      does not yet know that s is Stop(a, n). */
  function SlotResult(a: InitAnswers, n: nat, s: nat, j: nat): (r: Option<bool>)
    requires j < |a.bufs|
  {
    if j < s then Some(true)
    else if j == s && s < n && a.bufs[j].queried then Some(a.bufs[j].mapped)
    else None
  }

  /** Once s is the iteration where the loop stops, SlotResult is
      LoopMapResult. */
  lemma SlotResultAtStop(a: InitAnswers, n: nat, j: nat)
    requires n <= |a.bufs| && j < |a.bufs|
    ensures SlotResult(a, n, Stop(a, n), j) == LoopMapResult(a, n, j)
  {
  }

  /** The driver's globals apart from the frame table, as one value. */
  datatype Globals = Globals(cap: bv32, width: nat, height: nat, xShift: nat, yShift: nat,
                             strideUV: nat, index: nat, planes: Planes,
                             state: seq<BufState>, calls: seq<Call>)

  class Session {
    /** v4l2_cap: the masked device capabilities. */
    var cap: bv32
    var imageWidth: nat
    var imageHeight: nat
    var chromaXShift: nat
    var chromaYShift: nat
    var strideUV: nat
    /** v4lbuf.index: the buffer the shared descriptor names. */
    var bufIndex: nat
    /** image_y, image_u, image_v. */
    var planes: Planes
    /** frame[BUF_NUM]: the mappings of the device buffers. */
    const frame: array<Mapping>
    /** Who holds each granted buffer. */
    ghost var state: seq<BufState>
    /** Every device call made so far, oldest first. */
    ghost var calls: seq<Call>

    predicate Valid()
    {
      frame.Length == BUF_NUM
    }

    /** The driver's globals apart from the frame table, as they are now. */
    ghost function Snapshot(): (r: Globals)
      reads this
    {
      Globals(cap, imageWidth, imageHeight, chromaXShift, chromaYShift, strideUV,
              bufIndex, planes, state, calls)
    }

    /** The frame geometry the plane pointers are computed with. */
    function Fmt(): (r: Format)
      reads `imageWidth, `imageHeight, `chromaXShift, `chromaYShift
    {
      Format(imageWidth, imageHeight, chromaXShift, chromaYShift)
    }

    /** The plane pointers name a mapped buffer and stride_uv is the chroma
      row width: what draw_slice needs before it can copy. */
    predicate Drawable()
      reads this, frame
    {
      planes.frame < frame.Length && frame[planes.frame].Mapped? && strideUV == ChromaWidth(Fmt())
    }

    /** The buffer the plane pointers point into. */
    function Current(): (r: array<bv8>)
      reads this, frame
      requires Drawable()
    {
      frame[planes.frame].mem
    }

    /** The driver as loaded: zeroed globals, NULL pointers, an empty frame
        table, no device call yet. */
    constructor ()
      ensures Valid() && fresh(frame)
      ensures Snapshot() == Globals(0, 0, 0, 0, 0, 0, 0, Planes(0, 0, 0, 0), [], [])
      ensures forall i :: 0 <= i < BUF_NUM ==> frame[i] == Unmapped
    {
      cap := 0;
      imageWidth, imageHeight := 0, 0;
      chromaXShift, chromaYShift := 0, 0;
      strideUV := 0;
      bufIndex := 0;
      planes := Planes(0, 0, 0, 0);
      frame := new Mapping[BUF_NUM](_ => Unmapped);
      state := [];
      calls := [];
    }

    /** The capability part of get_v4ldev_cap: keep the two output bits
        and fail when neither is there. */
    method Probe(caps: bv32) returns (ret: int)
      modifies `cap
      ensures cap == OutputCaps(caps)
      ensures ret == (if OutputCaps(caps) == 0 then -1 else 0)
    {
      cap := OutputCaps(caps);
      ret := 0;
      if cap == 0 {
        ret := -1;
      }
    }

    /** setup_yuv_ptr: luma at the base of the descriptor's buffer, U after
        the luma plane, V after the U plane. */
    method SetupYuvPtr()
      modifies `planes
      ensures planes == PlaneLayout(bufIndex, Fmt())
    {
      var y := 0;
      var u := y + imageWidth * imageHeight;
      var v := u + Shr(imageWidth, chromaXShift) * Shr(imageHeight, chromaYShift);
      planes := Planes(bufIndex, y, u, v);
    }

    /** set_v4lfmt: map the tag to a device format, set it, read it back,
        and set the overlay window when the device has overlay. */
    method SetV4lFmt(format: nat, a: FormatAnswers) returns (ret: int)
      modifies `calls
      ensures ret == (if NegotiateOk(cap, format, a) then 0 else -1)
      ensures calls == old(calls) + NegotiateCalls(cap, format, imageWidth, imageHeight, a)
    {
      var pixelFormat := PixelFormat(format);
      if pixelFormat.None? {
        return -1;
      }
      calls := calls + [SetFormat(pixelFormat.value, imageWidth, imageHeight)];
      if !a.setFormat {
        return -1;
      }
      calls := calls + [GetFormat];
      if !a.getFormat {
        return -1;
      }
      ret := 0;
      if HasOverlay(cap) {
        calls := calls + [SetOverlayWindow(imageWidth, imageHeight)];
        if !a.setOverlay {
          ret := -1;
        }
      }
    }

    /** One pass of the buffers_init loop for buffer i of n: QUERYBUF,
        mmap into frame[i], setup_yuv_ptr, and QBUF unless it is the last
        buffer; ok is false at the first call that fails. */
    method SetUpBuffer(b: BufAnswer, i: nat, n: nat) returns (ok: bool)
      requires Valid() && i < n <= BUF_NUM && |state| == n
      modifies this, frame
      ensures ok == StepOk(b, i == n - 1)
      ensures cap == old(cap) && Fmt() == old(Fmt()) && strideUV == old(strideUV)
      ensures bufIndex == i
      ensures planes == if b.queried && b.mapped then PlaneLayout(i, Fmt()) else old(planes)
      ensures state == if ok && i < n - 1 then old(state)[i := Queued] else old(state)
      ensures calls == old(calls) + StepCalls(b, i, i == n - 1)
      ensures forall j :: 0 <= j < BUF_NUM && j != i ==> frame[j] == old(frame[j])
      ensures Installed(frame[i], old(frame[i]), if b.queried then Some(b.mapped) else None, b)
      ensures b.queried && b.mapped ==> fresh(frame[i].mem)
    {
      bufIndex := i;
      calls := calls + [QueryBuffer(i)];
      if !b.queried {
        return false;
      }
      calls := calls + [MapBuffer(i)];
      if !b.mapped {
        frame[i] := MapFailed;
        return false;
      }
      var mem := new bv8[b.length];
      frame[i] := Mapped(mem);
      SetupYuvPtr();
      ok := true;
      if i < n - 1 {
        calls := calls + [QueueBuffer(i)];
        if !b.queued {
          return false;
        }
        state := state[i := Queued];
      }
    }

    /** The globals and the frame table after s iterations of the loop of
        buffers_init over n buffers have all got through, starting from g
        and f. */
    ghost predicate Stepped(a: InitAnswers, n: nat, s: nat, g: Globals, f: seq<Mapping>)
      reads this, frame
      requires Valid() && |a.bufs| == BUF_NUM && |f| == BUF_NUM && n <= BUF_NUM
    {
      && s <= n && (forall j :: 0 <= j < s ==> StepOk(a.bufs[j], j == n - 1))
      && cap == g.cap && imageWidth == g.width && imageHeight == g.height
      && chromaXShift == g.xShift && chromaYShift == g.yShift && strideUV == g.strideUV
      && bufIndex == (if s == 0 then g.index else s - 1)
      && planes == (if s == 0 then g.planes else PlaneLayout(s - 1, Fmt()))
      && state == QueuedPrefix(n, s)
      && calls == g.calls + LoopCalls(a, n, s)
      && forall j :: 0 <= j < BUF_NUM ==>
           Installed(frame[j], f[j], if j < s then Some(true) else None, a.bufs[j])
    }

    /** The globals and the frame table when iteration s of the loop over n
        buffers has failed, all earlier ones having got through. */
    ghost predicate Broken(a: InitAnswers, n: nat, s: nat, g: Globals, f: seq<Mapping>)
      reads this, frame
      requires Valid() && |a.bufs| == BUF_NUM && |f| == BUF_NUM && n <= BUF_NUM
    {
      && s < n && (forall j :: 0 <= j < s ==> StepOk(a.bufs[j], j == n - 1))
      && !StepOk(a.bufs[s], s == n - 1)
      && cap == g.cap && imageWidth == g.width && imageHeight == g.height
      && chromaXShift == g.xShift && chromaYShift == g.yShift && strideUV == g.strideUV
      && bufIndex == s
      && planes == (if a.bufs[s].queried && a.bufs[s].mapped then PlaneLayout(s, Fmt())
                    else if s == 0 then g.planes else PlaneLayout(s - 1, Fmt()))
      && state == QueuedPrefix(n, s)
      && calls == g.calls + (LoopCalls(a, n, s) + StepCalls(a.bufs[s], s, s == n - 1))
      && forall j :: 0 <= j < BUF_NUM ==> Installed(frame[j], f[j], SlotResult(a, n, s, j), a.bufs[j])
    }

    /** The globals and the frame table after the whole loop of
        buffers_init over n buffers, in the terms of the protocol. */
    ghost predicate LoopResult(a: InitAnswers, n: nat, g: Globals, f: seq<Mapping>)
      reads this, frame
      requires Valid() && |a.bufs| == BUF_NUM && |f| == BUF_NUM && n <= BUF_NUM
    {
      && cap == g.cap && imageWidth == g.width && imageHeight == g.height
      && chromaXShift == g.xShift && chromaYShift == g.yShift && strideUV == g.strideUV
      && bufIndex == (if Iterations(a, n) == 0 then g.index else Iterations(a, n) - 1)
      && planes == (if MappedCount(a, n) == 0 then g.planes else PlaneLayout(MappedCount(a, n) - 1, Fmt()))
      && state == QueuedPrefix(n, Stop(a, n))
      && calls == g.calls + LoopCalls(a, n, Iterations(a, n))
      && forall j :: 0 <= j < BUF_NUM ==> Installed(frame[j], f[j], LoopMapResult(a, n, j), a.bufs[j])
    }

    /** A loop whose every iteration got through ends in its LoopResult. */
    lemma CompletedLoop(a: InitAnswers, n: nat, g: Globals, f: seq<Mapping>)
      requires Valid() && |a.bufs| == BUF_NUM && |f| == BUF_NUM && 1 <= n <= BUF_NUM
      requires Stepped(a, n, n, g, f)
      ensures LoopResult(a, n, g, f)
    {
      StopAt(a, n, n);
      LoopCompletes(a, n);
    }

    /** A loop that broke at iteration s ends in its LoopResult. */
    lemma BrokenLoop(a: InitAnswers, n: nat, s: nat, g: Globals, f: seq<Mapping>)
      requires Valid() && |a.bufs| == BUF_NUM && |f| == BUF_NUM && n <= BUF_NUM
      requires Broken(a, n, s, g, f)
      ensures LoopResult(a, n, g, f)
    {
      StopAt(a, n, s);
      LoopBreaksAt(a, n, s);
    }

    /** Iteration s of the loop of buffers_init: it either gets through or
        is where the loop breaks. */
    method SetUpNext(a: InitAnswers, n: nat, s: nat, ghost g: Globals, ghost f: seq<Mapping>) returns (ok: bool)
      requires Valid() && |a.bufs| == BUF_NUM && |f| == BUF_NUM && s < n <= BUF_NUM
      requires Stepped(a, n, s, g, f)
      modifies this, frame
      ensures ok ==> Stepped(a, n, s + 1, g, f)
      ensures !ok ==> Broken(a, n, s, g, f)
    {
      ghost var logged := calls;
      ok := SetUpBuffer(a.bufs[s], s, n);
      ghost var step := StepCalls(a.bufs[s], s, s == n - 1);
      assert calls == g.calls + (LoopCalls(a, n, s) + step) by {
        assert calls == logged + step;
        assert logged == g.calls + LoopCalls(a, n, s);
      }
      if ok {
        assert LoopCalls(a, n, s + 1) == LoopCalls(a, n, s) + step;
        assert state == QueuedPrefix(n, s + 1);
      }
    }

    /** The loop of buffers_init over n granted buffers: set up each in
        turn and stop at the first failure, without undoing the mappings
        already made. s is the iteration it stopped at (n when every buffer
        got through). */
    method SetUpBuffers(a: InitAnswers, n: nat) returns (s: nat)
      requires Valid() && 1 <= n <= BUF_NUM && |a.bufs| == BUF_NUM && state == QueuedPrefix(n, 0)
      modifies this, frame
      ensures s == Stop(a, n) && LoopResult(a, n, old(Snapshot()), old(frame[..]))
    {
      ghost var g, f := Snapshot(), frame[..];
      s := 0;
      while s < n
        invariant Valid() && s <= n && Stepped(a, n, s, g, f)
      {
        var ok := SetUpNext(a, n, s, g, f);
        if !ok {
          BrokenLoop(a, n, s, g, f);
          StopAt(a, n, s);
          return;
        }
        s := s + 1;
      }
      CompletedLoop(a, n, g, f);
      StopAt(a, n, s);
    }

    /** buffers_init: request BUF_NUM buffers, refuse fewer than
        MIN_BUFFERS, then set up the granted buffers. */
    method BuffersInit(a: InitAnswers) returns (ret: int)
      requires Valid() && InitWellFormed(a)
      modifies this, frame
      ensures ret == (if InitOk(a) then 0 else -1)
      ensures cap == old(cap) && Fmt() == old(Fmt()) && strideUV == old(strideUV)
      ensures bufIndex == InitIndex(a, old(bufIndex))
      ensures planes == if InitPlanesFrame(a).Some? then PlaneLayout(InitPlanesFrame(a).value, Fmt()) else old(planes)
      ensures state == InitStates(a, old(state))
      ensures calls == old(calls) + InitCalls(a)
      ensures forall i :: 0 <= i < BUF_NUM ==> Installed(frame[i], old(frame[i]), MapResult(a, i), a.bufs[i])
    {
      calls := calls + [RequestBuffers(BUF_NUM)];
      if a.granted.None? {
        return -1;
      }
      var n := a.granted.value;
      state := QueuedPrefix(n, 0);
      if n < MIN_BUFFERS {
        return -1;
      }
      ghost var g := Snapshot();
      var s := SetUpBuffers(a, n);
      ret := if s < n then -1 else 0;
      assert calls == old(calls) + InitCalls(a) by {
        assert calls == g.calls + LoopCalls(a, n, Iterations(a, n));
        assert g.calls == old(calls) + [RequestBuffers(BUF_NUM)];
      }
    }

    /** The second half of config: set up the buffers and, when that
        succeeded, turn the stream on. */
    method InitAndStream(a: DeviceAnswers) returns (ret: int)
      requires Valid() && InitWellFormed(a.init)
      modifies this, frame
      ensures ret == (if InitOk(a.init) && !a.streamOn then -1 else 0)
      ensures cap == old(cap) && Fmt() == old(Fmt()) && strideUV == old(strideUV)
      ensures bufIndex == InitIndex(a.init, old(bufIndex))
      ensures planes == if InitPlanesFrame(a.init).Some? then PlaneLayout(InitPlanesFrame(a.init).value, Fmt()) else old(planes)
      ensures state == InitStates(a.init, old(state))
      ensures calls == old(calls) + (InitCalls(a.init) + if InitOk(a.init) then [StreamOn] else [])
      ensures forall i :: 0 <= i < BUF_NUM ==> Installed(frame[i], old(frame[i]), MapResult(a.init, i), a.init.bufs[i])
      ensures InitOk(a.init) ==>
        && Steady(state, bufIndex)
        && planes == PlaneLayout(bufIndex, Fmt())
        && frame[bufIndex].Mapped? && frame[bufIndex].mem.Length == a.init.bufs[bufIndex].length
    {
      ghost var before, beforeIndex := state, bufIndex;
      var init := BuffersInit(a.init);
      ret := 0;
      if init == 0 {
        InitEndsSteady(a.init, before, beforeIndex);
        ghost var logged := calls;
        calls := calls + [StreamOn];
        assert calls == old(calls) + (InitCalls(a.init) + [StreamOn]) by {
          assert logged == old(calls) + InitCalls(a.init);
        }
        if !a.streamOn {
          ret := -1;
        }
      }
    }

    /** The first half of config: store the picture size, negotiate the
        format, then fix the chroma shifts and stride_uv. */
    method Negotiate(width: nat, height: nat, format: nat, a: FormatAnswers) returns (ret: int)
      modifies this
      ensures ret == (if NegotiateOk(cap, format, a) then 0 else -1)
      ensures cap == old(cap) && imageWidth == width && imageHeight == height
      ensures bufIndex == old(bufIndex) && planes == old(planes) && state == old(state)
      ensures calls == old(calls) + NegotiateCalls(cap, format, width, height, a)
      ensures ret != 0 ==>
        chromaXShift == old(chromaXShift) && chromaYShift == old(chromaYShift) && strideUV == old(strideUV)
      ensures ret == 0 ==>
        Some(Shifts(chromaXShift, chromaYShift)) == ChromaShifts(format) && strideUV == Shr(width, chromaXShift)
    {
      imageWidth := width;
      imageHeight := height;
      ret := SetV4lFmt(format, a);
      if ret < 0 {
        return -1;
      }
      // The format switch of config has the same cases as set_v4lfmt's, so
      // its default branch cannot be reached here.
      ShiftsMatchDeviceFormat(format);
      var shifts := ChromaShifts(format).value;
      chromaXShift := shifts.x;
      chromaYShift := shifts.y;
      strideUV := Shr(width, chromaXShift);
    }

    /** config: store the picture size, negotiate the format, fix the
        chroma shifts and stride_uv, set up the buffers and, when that
        succeeded, start streaming. A failed buffers_init is not reported. */
    method Config(width: nat, height: nat, format: nat, a: DeviceAnswers) returns (ret: int)
      requires Valid() && InitWellFormed(a.init)
      modifies this, frame
      ensures ret == ConfigStatus(old(cap), format, a)
      ensures cap == old(cap) && imageWidth == width && imageHeight == height
      ensures calls == old(calls) + ConfigCalls(cap, format, width, height, a)
      ensures !NegotiateOk(cap, format, a.format) ==>
        && chromaXShift == old(chromaXShift) && chromaYShift == old(chromaYShift)
        && strideUV == old(strideUV) && bufIndex == old(bufIndex) && planes == old(planes)
        && state == old(state) && frame[..] == old(frame[..])
      ensures NegotiateOk(cap, format, a.format) ==>
        && Some(Shifts(chromaXShift, chromaYShift)) == ChromaShifts(format)
        && strideUV == Shr(width, chromaXShift)
        && bufIndex == InitIndex(a.init, old(bufIndex))
        && planes == (if InitPlanesFrame(a.init).Some? then PlaneLayout(InitPlanesFrame(a.init).value, Fmt()) else old(planes))
        && state == InitStates(a.init, old(state))
        && forall i :: 0 <= i < BUF_NUM ==> Installed(frame[i], old(frame[i]), MapResult(a.init, i), a.init.bufs[i])
      ensures NegotiateOk(cap, format, a.format) && InitOk(a.init) ==>
        && Steady(state, bufIndex)
        && planes == PlaneLayout(bufIndex, Fmt())
        && Drawable()
        && Current().Length == a.init.bufs[bufIndex].length
    {
      ret := Negotiate(width, height, format, a.format);
      if ret < 0 {
        return;
      }
      ghost var logged := calls;
      ret := InitAndStream(a);
      assert calls == old(calls) + ConfigCalls(cap, format, width, height, a) by {
        assert logged == old(calls) + NegotiateCalls(cap, format, width, height, a.format);
      }
    }

    /** draw_slice: copy the w x h rectangle at (x, y) of the three source
        planes into the current buffer, luma rows first, then U and V rows
        in turn. */
    method DrawSlice(src: Source, r: Rect) returns (ret: int)
      requires Drawable() && SliceFits(Fmt(), planes, src, r, Current().Length)
      modifies Current()
      ensures ret == 0
      ensures old(Current())[..] == SliceResult(old(Current()[..]), old(Fmt()), old(planes), src, r)
    {
      var buf := Current();
      var f, p := Fmt(), planes;
      SliceCopiesFit(f, p, src, r, buf.Length);
      CopyRowsInPlace(buf, LumaCopy(f, p, src, r), r.h);
      CopyRowPairsInPlace(buf, UCopy(f, p, src, r), VCopy(f, p, src, r), Shr(r.h, chromaYShift));
      ret := 0;
    }

    /** draw_image: copy the whole picture as one slice unless the player
        rendered it directly or already sent it in slices. */
    method DrawImage(flags: bv32, src: Source, w: nat, h: nat) returns (ret: int)
      requires Images.DrawImageBlits(flags) ==>
        Drawable() && SliceFits(Fmt(), planes, src, Rect(0, 0, w, h), Current().Length)
      modifies if Images.DrawImageBlits(flags) then {Current()} else {}
      ensures ret == 1
      ensures Images.DrawImageBlits(flags) ==>
        old(Current())[..] == SliceResult(old(Current()[..]), old(Fmt()), old(planes), src, Rect(0, 0, w, h))
    {
      if Images.DrawImageBlits(flags) {
        var _ := DrawSlice(src, Rect(0, 0, w, h));
      }
      ret := 1;
    }

    /** get_image: hand a planar image the current plane pointers with
        image_width as luma stride and stride_uv as chroma stride. */
    function GetImage(flags: bv32): (r: Option<Images.DirectImage>)
      reads this
      ensures r == Images.GetImage(flags, planes, imageWidth, strideUV)
      ensures r.Some? <==> flags & Images.MP_IMGFLAG_PLANAR != 0
      ensures r.Some? ==> r.value.planes == planes && r.value.strideY == imageWidth
      ensures r.Some? ==> r.value.strideU == strideUV && r.value.strideV == strideUV
      ensures r.Some? ==> r.value.flags == flags | Images.MP_IMGFLAG_DIRECT
      ensures r.Some? ==> !Images.DrawImageBlits(r.value.flags)
    {
      if flags & Images.MP_IMGFLAG_PLANAR == 0 then None
      else
        Images.DirectImageNotBlitted(flags, planes, imageWidth, strideUV);
        Images.GetImage(flags, planes, imageWidth, strideUV)
    }

    /** The dequeue loop of flip_page on a cleared descriptor: DQBUF until
        one succeeds or DEQUEUE_TIMES_IN_SHOW attempts have failed, with a
        pause after each failure but the last. A failed attempt may still
        write an index into the descriptor. */
    method Dequeue(answers: seq<DqAnswer>)
      requires |answers| == DEQUEUE_TIMES_IN_SHOW && bufIndex == 0
      modifies `bufIndex, `state, `calls
      ensures bufIndex == FlipIndex(answers)
      ensures state == DequeueStates(old(state), answers)
      ensures calls == old(calls) + PollCalls(Attempts(answers))
    {
      var cnt := DEQUEUE_TIMES_IN_SHOW;
      var k := 0;
      while true
        invariant k < DEQUEUE_TIMES_IN_SHOW && cnt == DEQUEUE_TIMES_IN_SHOW - k
        invariant forall j :: 0 <= j < k ==> answers[j].Failed?
        invariant bufIndex == IndexAfter(answers, k) && state == old(state)
        invariant calls == old(calls) + if k == 0 then [] else PollCalls(k) + [Wait]
        decreases cnt
      {
        ghost var logged := calls;
        calls := calls + [DequeueBuffer];
        assert calls == old(calls) + PollCalls(k + 1) by {
          if k > 0 {
            assert PollCalls(k + 1) == PollCalls(k) + [Wait, DequeueBuffer];
            assert logged == old(calls) + (PollCalls(k) + [Wait]);
          }
        }
        var answer := answers[k];
        if answer.Dequeued? {
          bufIndex := answer.index;
          state := Release(state, answer.index);
          AttemptsAt(answers, k);
          return;
        }
        if answer.wrote.Some? {
          bufIndex := answer.wrote.value;
        }
        cnt := cnt - 1;
        if cnt == 0 {
          AttemptsAt(answers, k);
          return;
        }
        calls := calls + [Wait];
        k := k + 1;
      }
    }

    /** flip_page: queue the buffer just drawn, clear the descriptor, try
        to dequeue a buffer, and point the planes at whatever index the
        descriptor then holds. */
    method FlipPage(queued: bool, answers: seq<DqAnswer>)
      requires |answers| == DEQUEUE_TIMES_IN_SHOW
      modifies `bufIndex, `state, `calls, `planes
      ensures bufIndex == FlipIndex(answers) && planes == PlaneLayout(bufIndex, Fmt())
      ensures state == FlipStates(old(state), old(bufIndex), queued, answers)
      ensures calls == old(calls) + FlipCalls(old(bufIndex), answers)
    {
      calls := calls + [QueueBuffer(bufIndex)];
      state := Enqueue(state, bufIndex, queued);
      bufIndex := 0;
      ghost var logged := calls;
      Dequeue(answers);
      assert calls == old(calls) + FlipCalls(old(bufIndex), answers) by {
        assert logged == old(calls) + [QueueBuffer(old(bufIndex))];
      }
      SetupYuvPtr();
    }
  }
}
