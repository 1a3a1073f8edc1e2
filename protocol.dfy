/** The driver's conversation with the V4L2 output device: the calls it
    makes, the device's answers, which buffers the device holds, and the
    specification functions of set_v4lfmt, buffers_init, config and
    flip_page over those answers. */
module Protocol {
  import opened Wrappers
  import opened Negotiation

  /** Buffers requested from the device; also the size of the frame table. */
  const BUF_NUM: nat := 4
  /** Fewest granted buffers buffers_init accepts. */
  const MIN_BUFFERS: nat := 3
  /** Dequeue attempts flip_page makes before giving up. */
  const DEQUEUE_TIMES_IN_SHOW: nat := 16

  /** One call the driver makes on the device (ioctl, mmap, or the pause
      between two dequeue attempts). */
  datatype Call =
    | SetFormat(pixelFormat: nat, width: nat, height: nat)
    | GetFormat
    | SetOverlayWindow(width: nat, height: nat)
    | RequestBuffers(count: nat)
    | QueryBuffer(index: nat)
    | MapBuffer(index: nat)
    | QueueBuffer(index: nat)
    | DequeueBuffer
    | Wait
    | StreamOn

  /** Who holds a granted buffer: the driver (Free) or the device (Queued). */
  datatype BufState = Free | Queued

  /** The device's answers to the three format calls of set_v4lfmt. */
  datatype FormatAnswers = FormatAnswers(setFormat: bool, getFormat: bool, setOverlay: bool)

  /** The device's answers for one buffer in buffers_init: QUERYBUF (with
      the buffer length it reports), mmap and QBUF. */
  datatype BufAnswer = BufAnswer(queried: bool, length: nat, mapped: bool, queued: bool)

  /** REQBUFS (None when it fails, else the granted count) and the answers
      for each of the BUF_NUM buffer slots. */
  datatype InitAnswers = InitAnswers(granted: Option<nat>, bufs: seq<BufAnswer>)

  /** Everything config asks the device. */
  datatype DeviceAnswers = DeviceAnswers(format: FormatAnswers, init: InitAnswers, streamOn: bool)

  /** One DQBUF attempt: the device hands back buffer `index`, or fails,
      possibly having written an index into the descriptor anyway. */
  datatype DqAnswer = Dequeued(index: nat) | Failed(wrote: Option<nat>)

  // ---------------------------------------------------------------------
  // set_v4lfmt

  /** The calls set_v4lfmt makes: none for a refused tag, then S_FMT, then
      G_FMT once S_FMT succeeded, then the overlay window once G_FMT
      succeeded on a device with overlay. */
  function NegotiateCalls(cap: bv32, tag: nat, width: nat, height: nat, a: FormatAnswers): (r: seq<Call>)
  {
    match PixelFormat(tag)
    case None => []
    case Some(pf) =>
      [SetFormat(pf, width, height)] +
      if !a.setFormat then []
      else [GetFormat] + if !a.getFormat || !HasOverlay(cap) then [] else [SetOverlayWindow(width, height)]
  }

  /** set_v4lfmt returns 0. */
  predicate NegotiateOk(cap: bv32, tag: nat, a: FormatAnswers)
  {
    PixelFormat(tag).Some? && a.setFormat && a.getFormat && (HasOverlay(cap) ==> a.setOverlay)
  }

  /** A refused tag costs no device call; an accepted one always starts
      with S_FMT for its device format at the picture size, and the overlay
      window is set exactly when the device has overlay and the first two
      calls succeeded. */
  lemma NegotiateCallOrder(cap: bv32, tag: nat, width: nat, height: nat, a: FormatAnswers)
    ensures PixelFormat(tag).None? ==> NegotiateCalls(cap, tag, width, height, a) == []
    ensures PixelFormat(tag).Some? ==>
      NegotiateCalls(cap, tag, width, height, a)[0] == SetFormat(PixelFormat(tag).value, width, height)
    ensures SetOverlayWindow(width, height) in NegotiateCalls(cap, tag, width, height, a) <==>
      PixelFormat(tag).Some? && a.setFormat && a.getFormat && HasOverlay(cap)
    ensures |NegotiateCalls(cap, tag, width, height, a)| <= 3
  {
  }

  // ---------------------------------------------------------------------
  // buffers_init

  predicate InitWellFormed(a: InitAnswers)
  {
    |a.bufs| == BUF_NUM && (a.granted.Some? ==> a.granted.value <= BUF_NUM)
  }

  /** REQBUFS succeeded and granted at least MIN_BUFFERS, so the loop runs. */
  predicate Proceeds(a: InitAnswers)
  {
    a.granted.Some? && a.granted.value >= MIN_BUFFERS
  }

  /** Iteration i of the loop gets through: QUERYBUF and mmap succeed and,
      except on the last buffer, QBUF succeeds. */
  predicate StepOk(b: BufAnswer, last: bool)
  {
    b.queried && b.mapped && (last || b.queued)
  }

  /** The iteration, from k on, at which the loop over n buffers breaks, or
      n when it completes. */
  function StopFrom(a: InitAnswers, n: nat, k: nat): (s: nat)
    requires n <= |a.bufs| && k <= n
    ensures k <= s <= n
    ensures forall j :: k <= j < s ==> StepOk(a.bufs[j], j == n - 1)
    ensures s < n ==> !StepOk(a.bufs[s], s == n - 1)
    decreases n - k
  {
    if k == n || !StepOk(a.bufs[k], k == n - 1) then k else StopFrom(a, n, k + 1)
  }

  /** The iteration at which the loop breaks, or n when it completes. */
  function Stop(a: InitAnswers, n: nat): (s: nat)
    requires n <= |a.bufs|
    ensures s <= n
    ensures forall j :: 0 <= j < s ==> StepOk(a.bufs[j], j == n - 1)
    ensures s < n ==> !StepOk(a.bufs[s], s == n - 1)
  {
    StopFrom(a, n, 0)
  }

  /** Iterations the loop starts. */
  function Iterations(a: InitAnswers, n: nat): (r: nat)
    requires n <= |a.bufs|
  {
    if Stop(a, n) < n then Stop(a, n) + 1 else n
  }

  /** The calls of one iteration, up to the one that fails. */
  function StepCalls(b: BufAnswer, i: nat, last: bool): (r: seq<Call>)
  {
    if !b.queried then [QueryBuffer(i)]
    else if !b.mapped || last then [QueryBuffer(i), MapBuffer(i)]
    else [QueryBuffer(i), MapBuffer(i), QueueBuffer(i)]
  }

  /** The calls of the first k iterations over n granted buffers. */
  function LoopCalls(a: InitAnswers, n: nat, k: nat): (r: seq<Call>)
    requires k <= |a.bufs|
  {
    if k == 0 then [] else LoopCalls(a, n, k - 1) + StepCalls(a.bufs[k - 1], k - 1, k - 1 == n - 1)
  }

  /** The calls buffers_init makes. */
  function InitCalls(a: InitAnswers): (r: seq<Call>)
    requires InitWellFormed(a)
  {
    [RequestBuffers(BUF_NUM)] +
    if Proceeds(a) then LoopCalls(a, a.granted.value, Iterations(a, a.granted.value)) else []
  }

  /** buffers_init returns 0. */
  predicate InitOk(a: InitAnswers)
    requires InitWellFormed(a)
  {
    Proceeds(a) && Stop(a, a.granted.value) == a.granted.value
  }

  /** n granted buffers, the first k of them queued except the last one. */
  function QueuedPrefix(n: nat, k: nat): (s: seq<BufState>)
    ensures |s| == n
  {
    seq(n, j requires 0 <= j < n => if j < k && j < n - 1 then Queued else Free)
  }

  /** Buffer ownership after buffers_init: unchanged when REQBUFS fails,
      otherwise the granted buffers, of which those whose QBUF succeeded are
      held by the device. */
  function InitStates(a: InitAnswers, before: seq<BufState>): (r: seq<BufState>)
    requires InitWellFormed(a)
  {
    if a.granted.None? then before
    else if !Proceeds(a) then QueuedPrefix(a.granted.value, 0)
    else QueuedPrefix(a.granted.value, Stop(a, a.granted.value))
  }

  /** The descriptor's index after buffers_init: the last iteration's. */
  function InitIndex(a: InitAnswers, before: nat): (r: nat)
    requires InitWellFormed(a)
  {
    if Proceeds(a) then Iterations(a, a.granted.value) - 1 else before
  }

  /** Iterations whose mmap succeeded (each one calls setup_yuv_ptr). */
  function MappedCount(a: InitAnswers, n: nat): (r: nat)
    requires n <= |a.bufs|
  {
    var s := Stop(a, n);
    if s == n then n
    else if a.bufs[s].queried && a.bufs[s].mapped then s + 1
    else s
  }

  /** The frame the plane pointers name after buffers_init, or None when
      setup_yuv_ptr never ran and they are left as they were. */
  function InitPlanesFrame(a: InitAnswers): (r: Option<nat>)
    requires InitWellFormed(a)
  {
    if Proceeds(a) && MappedCount(a, a.granted.value) > 0
    then Some(MappedCount(a, a.granted.value) - 1)
    else None
  }

  /** What the loop over n buffers stores in frame[i]: None when it does
      not touch it, Some(true) for a mapping, Some(false) for MAP_FAILED. */
  function LoopMapResult(a: InitAnswers, n: nat, i: nat): (r: Option<bool>)
    requires n <= |a.bufs|
  {
    if i >= Iterations(a, n) then None
    else if i < Stop(a, n) then Some(true)
    else if a.bufs[i].queried then Some(a.bufs[i].mapped)
    else None
  }

  /** What buffers_init stores in frame[i]. */
  function MapResult(a: InitAnswers, i: nat): (r: Option<bool>)
    requires InitWellFormed(a)
  {
    if Proceeds(a) then LoopMapResult(a, a.granted.value, i) else None
  }

  /** Stop is the one iteration whose predecessors all get through and
      which either fails or is n. */
  lemma StopAt(a: InitAnswers, n: nat, s: nat)
    requires n <= |a.bufs| && s <= n
    requires forall j :: 0 <= j < s ==> StepOk(a.bufs[j], j == n - 1)
    requires s < n ==> !StepOk(a.bufs[s], s == n - 1)
    ensures Stop(a, n) == s
  {
  }

  /** What the loop's results come to when it breaks at iteration i, all
      earlier iterations having got through. */
  lemma LoopBreaksAt(a: InitAnswers, n: nat, i: nat)
    requires n <= |a.bufs| && i < n && i <= Stop(a, n)
    requires !StepOk(a.bufs[i], i == n - 1)
    ensures var b := a.bufs[i];
      && Stop(a, n) == i && Iterations(a, n) == i + 1
      && LoopCalls(a, n, Iterations(a, n)) == LoopCalls(a, n, i) + StepCalls(b, i, i == n - 1)
      && MappedCount(a, n) == (if b.queried && b.mapped then i + 1 else i)
      && (forall j: nat :: LoopMapResult(a, n, j) ==
            if j < i then Some(true) else if j == i && b.queried then Some(b.mapped) else None)
  {
  }

  /** What the loop's results come to when it completes. */
  lemma LoopCompletes(a: InitAnswers, n: nat)
    requires n <= |a.bufs| && Stop(a, n) == n
    ensures Iterations(a, n) == n && MappedCount(a, n) == n
    ensures forall j: nat :: LoopMapResult(a, n, j) == if j < n then Some(true) else None
  {
  }

  /** buffers_init succeeds exactly when REQBUFS grants at least three
      buffers and every buffer is queried and mapped and every one but the
      last is queued. */
  lemma InitOkIff(a: InitAnswers)
    requires InitWellFormed(a)
    ensures InitOk(a) <==>
      && a.granted.Some? && a.granted.value >= MIN_BUFFERS
      && forall i :: 0 <= i < a.granted.value ==>
           a.bufs[i].queried && a.bufs[i].mapped && (i == a.granted.value - 1 || a.bufs[i].queued)
  {
    if Proceeds(a) {
      var n := a.granted.value;
      if !InitOk(a) {
        var s := Stop(a, n);
        assert !StepOk(a.bufs[s], s == n - 1);
      }
    }
  }

  /** The buffer indices a call sequence enqueues, in order. */
  function Enqueued(calls: seq<Call>): (r: seq<nat>)
  {
    if |calls| == 0 then []
    else (if calls[0].QueueBuffer? then [calls[0].index] else []) + Enqueued(calls[1..])
  }

  /** 0, 1, ..., m-1. */
  function Upto(m: nat): (r: seq<nat>)
    ensures |r| == m && forall j :: 0 <= j < m ==> r[j] == j
  {
    if m == 0 then [] else Upto(m - 1) + [m - 1]
  }

  /** Enqueued distributes over concatenation. */
  lemma {:induction false} EnqueuedAppend(p: seq<Call>, s: seq<Call>)
    ensures Enqueued(p + s) == Enqueued(p) + Enqueued(s)
    decreases |p|
  {
    if |p| == 0 {
      assert p + s == s;
    } else {
      assert (p + s)[1..] == p[1..] + s;
      EnqueuedAppend(p[1..], s);
    }
  }

  /** One iteration enqueues its own buffer when that buffer was queried
      and mapped and is not the last one, and nothing otherwise. */
  lemma StepQueued(b: BufAnswer, j: nat, last: bool)
    ensures Enqueued(StepCalls(b, j, last)) == if b.queried && b.mapped && !last then [j] else []
  {
    var s := StepCalls(b, j, last);
    assert Enqueued(s[|s| - 1..]) == if s[|s| - 1].QueueBuffer? then [j] else [];
    if |s| > 1 {
      assert s[1..] == [s[1]] + s[2..];
    }
  }

  /** When the first k iterations over n buffers all succeed, they enqueue
      buffers 0 .. k-1 in order, except the last granted buffer. */
  lemma {:induction false} LoopQueued(a: InitAnswers, n: nat, k: nat)
    requires k <= n && k <= |a.bufs|
    requires forall j :: 0 <= j < k ==> StepOk(a.bufs[j], j == n - 1)
    ensures Enqueued(LoopCalls(a, n, k)) == Upto(if k == n && 0 < n then n - 1 else k)
  {
    if k > 0 {
      LoopQueued(a, n, k - 1);
      EnqueuedAppend(LoopCalls(a, n, k - 1), StepCalls(a.bufs[k - 1], k - 1, k - 1 == n - 1));
      StepQueued(a.bufs[k - 1], k - 1, k - 1 == n - 1);
    }
  }

  /** The loop only queries, maps and queues buffers. */
  lemma {:induction false} LoopCallsKinds(a: InitAnswers, n: nat, k: nat)
    requires k <= |a.bufs|
    ensures forall c :: c in LoopCalls(a, n, k) ==> c.QueryBuffer? || c.MapBuffer? || c.QueueBuffer?
  {
    if k > 0 {
      LoopCallsKinds(a, n, k - 1);
    }
  }

  /** A successful buffers_init enqueues buffers 0 .. n-2, each once and
      in order, and never the last one, which it keeps. */
  lemma InitQueuesAllButLast(a: InitAnswers)
    requires InitWellFormed(a) && InitOk(a)
    ensures Enqueued(InitCalls(a)) == Upto(a.granted.value - 1)
  {
    var n := a.granted.value;
    assert Iterations(a, n) == n;
    assert InitCalls(a) == [RequestBuffers(BUF_NUM)] + LoopCalls(a, n, n);
    EnqueuedAppend([RequestBuffers(BUF_NUM)], LoopCalls(a, n, n));
    LoopQueued(a, n, n);
  }

  /** After a successful buffers_init the device holds all buffers but the
      last, and the descriptor and the plane pointers name the last one. */
  lemma InitEndsSteady(a: InitAnswers, before: seq<BufState>, beforeIndex: nat)
    requires InitWellFormed(a) && InitOk(a)
    ensures var n := a.granted.value;
      && Steady(InitStates(a, before), n - 1)
      && InitIndex(a, beforeIndex) == n - 1
      && InitPlanesFrame(a) == Some(n - 1)
  {
    var n := a.granted.value;
    var s := InitStates(a, before);
    assert s == QueuedPrefix(n, n);
    assert forall j :: 0 <= j < n - 1 ==> s[j] == Queued;
  }

  /** When REQBUFS fails or grants too few buffers, buffers_init makes no
      call after REQBUFS, fails, and leaves the descriptor, the pointers and
      the frame table alone. */
  lemma InitRefused(a: InitAnswers, before: seq<BufState>, beforeIndex: nat)
    requires InitWellFormed(a) && !Proceeds(a)
    ensures InitCalls(a) == [RequestBuffers(BUF_NUM)] && !InitOk(a)
    ensures InitIndex(a, beforeIndex) == beforeIndex && InitPlanesFrame(a).None?
    ensures forall i :: MapResult(a, i).None?
    ensures a.granted.Some? ==> forall j :: 0 <= j < |InitStates(a, before)| ==> InitStates(a, before)[j] == Free
  {
  }

  /** A failed buffers_init leaves no buffer but the ones before the
      failing iteration with the device, and leaves every mapping it made
      in place. */
  lemma InitFailureKeepsMappings(a: InitAnswers, before: seq<BufState>)
    requires InitWellFormed(a) && Proceeds(a) && !InitOk(a)
    ensures var s := Stop(a, a.granted.value);
      && (forall i :: 0 <= i < s ==> MapResult(a, i) == Some(true))
      && (forall j :: 0 <= j < a.granted.value ==> (InitStates(a, before)[j] == Queued <==> j < s))
  {
  }

  // ---------------------------------------------------------------------
  // config

  /** The value config returns. */
  function ConfigStatus(cap: bv32, tag: nat, a: DeviceAnswers): (r: int)
    requires InitWellFormed(a.init)
  {
    if !NegotiateOk(cap, tag, a.format) then -1
    else if InitOk(a.init) && !a.streamOn then -1
    else 0
  }

  /** The calls config makes. */
  function ConfigCalls(cap: bv32, tag: nat, width: nat, height: nat, a: DeviceAnswers): (r: seq<Call>)
    requires InitWellFormed(a.init)
  {
    NegotiateCalls(cap, tag, width, height, a.format) +
    if !NegotiateOk(cap, tag, a.format) then []
    else InitCalls(a.init) + if InitOk(a.init) then [StreamOn] else []
  }

  /** config reports success when buffers_init fails: it then never turns
      the stream on, yet returns 0. */
  lemma ConfigIgnoresInitFailure(cap: bv32, tag: nat, width: nat, height: nat, a: DeviceAnswers)
    requires InitWellFormed(a.init) && NegotiateOk(cap, tag, a.format) && !InitOk(a.init)
    ensures ConfigStatus(cap, tag, a) == 0
    ensures StreamOn !in ConfigCalls(cap, tag, width, height, a)
  {
    if Proceeds(a.init) {
      var n := a.init.granted.value;
      LoopCallsKinds(a.init, n, Iterations(a.init, n));
    }
  }

  /** config fails exactly when negotiation fails or the stream does not
      start after a successful buffers_init; the stream is started exactly
      after a successful buffers_init. */
  lemma ConfigStatusIff(cap: bv32, tag: nat, width: nat, height: nat, a: DeviceAnswers)
    requires InitWellFormed(a.init)
    ensures ConfigStatus(cap, tag, a) == 0 <==>
      NegotiateOk(cap, tag, a.format) && (InitOk(a.init) ==> a.streamOn)
    ensures StreamOn in ConfigCalls(cap, tag, width, height, a) <==>
      NegotiateOk(cap, tag, a.format) && InitOk(a.init)
  {
    if NegotiateOk(cap, tag, a.format) && Proceeds(a.init) {
      var n := a.init.granted.value;
      LoopCallsKinds(a.init, n, Iterations(a.init, n));
    }
  }

  // ---------------------------------------------------------------------
  // flip_page

  /** Exactly one buffer is with the driver, buffer c, and the device holds
      the rest: the state between two pages. */
  predicate Steady(s: seq<BufState>, c: nat)
  {
    c < |s| && s[c] == Free && forall j :: 0 <= j < |s| && j != c ==> s[j] == Queued
  }

  /** In a steady state the driver owns one buffer and the device the
      others. */
  lemma SteadyOneFree(s: seq<BufState>, c: nat)
    requires Steady(s, c)
    ensures multiset(s)[Free] == 1 && multiset(s)[Queued] == |s| - 1
  {
    var pre, post := s[..c], s[c + 1..];
    assert s == pre + [Free] + post;
    assert Free !in pre && Free !in post;
    AllEnqueued(pre);
    AllEnqueued(post);
  }

  /** A state with no free buffer has every buffer with the device. */
  lemma {:induction false} AllEnqueued(s: seq<BufState>)
    requires Free !in s
    ensures multiset(s)[Queued] == |s| && multiset(s)[Free] == 0
  {
    if |s| > 0 {
      assert s == [s[0]] + s[1..];
      assert s[0] == Queued;
      AllEnqueued(s[1..]);
    }
  }

  /** DQBUF calls made from attempt k on, given that attempt k is made:
      up to and including the first success, and never past the last
      attempt allowed. */
  function AttemptsFrom(a: seq<DqAnswer>, k: nat): (n: nat)
    requires |a| == DEQUEUE_TIMES_IN_SHOW && k < DEQUEUE_TIMES_IN_SHOW
    ensures k + 1 <= n <= DEQUEUE_TIMES_IN_SHOW
    ensures forall j :: k <= j < n - 1 ==> a[j].Failed?
    ensures a[n - 1].Dequeued? || n == DEQUEUE_TIMES_IN_SHOW
    decreases DEQUEUE_TIMES_IN_SHOW - k
  {
    if a[k].Dequeued? || k == DEQUEUE_TIMES_IN_SHOW - 1 then k + 1 else AttemptsFrom(a, k + 1)
  }

  /** DQBUF calls flip_page makes: up to and including the first success,
      at most DEQUEUE_TIMES_IN_SHOW. */
  function Attempts(a: seq<DqAnswer>): (n: nat)
    requires |a| == DEQUEUE_TIMES_IN_SHOW
    ensures 1 <= n <= DEQUEUE_TIMES_IN_SHOW
    ensures forall j :: 0 <= j < n - 1 ==> a[j].Failed?
    ensures a[n - 1].Dequeued? || n == DEQUEUE_TIMES_IN_SHOW
  {
    AttemptsFrom(a, 0)
  }

  /** Attempts is k + 1 when the first k attempts fail and attempt k
      either succeeds or is the last one allowed. */
  lemma AttemptsAt(a: seq<DqAnswer>, k: nat)
    requires |a| == DEQUEUE_TIMES_IN_SHOW && k < DEQUEUE_TIMES_IN_SHOW
    requires forall j :: 0 <= j < k ==> a[j].Failed?
    requires a[k].Dequeued? || k == DEQUEUE_TIMES_IN_SHOW - 1
    ensures Attempts(a) == k + 1
  {
  }

  /** The index an answer writes into the descriptor, if any. */
  function Wrote(d: DqAnswer): (r: Option<nat>)
  {
    match d
    case Dequeued(i) => Some(i)
    case Failed(w) => w
  }

  /** The descriptor's index after k attempts on a cleared descriptor. */
  function IndexAfter(a: seq<DqAnswer>, k: nat): (r: nat)
    requires k <= |a|
  {
    if k == 0 then 0
    else match Wrote(a[k - 1])
      case Some(i) => i
      case None => IndexAfter(a, k - 1)
  }

  /** When no attempt wrote an index, the descriptor keeps the 0 that
      CLEAR left there. */
  lemma {:induction false} IndexAfterNoWrite(a: seq<DqAnswer>, k: nat)
    requires k <= |a|
    requires forall j :: 0 <= j < k ==> Wrote(a[j]).None?
    ensures IndexAfter(a, k) == 0
  {
    if k > 0 {
      IndexAfterNoWrite(a, k - 1);
    }
  }

  /** The descriptor's index is the index the latest writing attempt
      wrote, or the 0 that CLEAR left when no attempt wrote one. */
  lemma {:induction false} IndexAfterLatest(a: seq<DqAnswer>, k: nat)
    requires k <= |a|
    ensures (IndexAfter(a, k) == 0 && forall j :: 0 <= j < k ==> Wrote(a[j]).None?) ||
      exists j :: 0 <= j < k && Wrote(a[j]) == Some(IndexAfter(a, k)) &&
        forall j' :: j < j' < k ==> Wrote(a[j']).None?
  {
    if k > 0 && Wrote(a[k - 1]).None? {
      IndexAfterLatest(a, k - 1);
    }
  }

  /** Dequeue attempts with a pause after each failure but the last. */
  function PollCalls(n: nat): (r: seq<Call>)
    requires n >= 1
  {
    if n == 1 then [DequeueBuffer] else PollCalls(n - 1) + [Wait, DequeueBuffer]
  }

  /** n attempts cost n DQBUF calls and n - 1 pauses, and the log ends in
      a DQBUF. */
  lemma {:induction false} PollCount(n: nat)
    requires n >= 1
    ensures multiset(PollCalls(n))[DequeueBuffer] == n
    ensures multiset(PollCalls(n))[Wait] == n - 1
    ensures |PollCalls(n)| == 2 * n - 1 && PollCalls(n)[|PollCalls(n)| - 1] == DequeueBuffer
  {
    if n > 1 {
      PollCount(n - 1);
    }
  }

  /** The calls of flip_page: QBUF of the descriptor's buffer, then the
      polling loop. */
  function FlipCalls(index: nat, a: seq<DqAnswer>): (r: seq<Call>)
    requires |a| == DEQUEUE_TIMES_IN_SHOW
  {
    [QueueBuffer(index)] + PollCalls(Attempts(a))
  }

  /** flip_page makes at most DEQUEUE_TIMES_IN_SHOW dequeue attempts and
      sleeps at most DEQUEUE_TIMES_IN_SHOW - 1 times, one fewer than it
      attempts; it queues exactly the buffer it was drawing. */
  lemma FlipBounded(index: nat, a: seq<DqAnswer>)
    requires |a| == DEQUEUE_TIMES_IN_SHOW
    ensures var m := multiset(FlipCalls(index, a));
      && m[DequeueBuffer] == Attempts(a) <= DEQUEUE_TIMES_IN_SHOW
      && m[Wait] == Attempts(a) - 1 <= DEQUEUE_TIMES_IN_SHOW - 1
      && m[QueueBuffer(index)] == 1
  {
    var n := Attempts(a);
    PollCount(n);
    PollKinds(n);
    assert QueueBuffer(index) !in PollCalls(n);
    assert multiset(FlipCalls(index, a)) == multiset([QueueBuffer(index)]) + multiset(PollCalls(n));
  }

  /** Polling only dequeues and waits. */
  lemma {:induction false} PollKinds(n: nat)
    requires n >= 1
    ensures forall c :: c in PollCalls(n) ==> c == DequeueBuffer || c == Wait
  {
    if n > 1 {
      PollKinds(n - 1);
    }
  }

  /** QBUF hands buffer i to the device when the call succeeds. */
  function Enqueue(s: seq<BufState>, i: nat, ok: bool): (r: seq<BufState>)
  {
    if ok && i < |s| then s[i := Queued] else s
  }

  /** A successful DQBUF hands buffer i back to the driver. */
  function Release(s: seq<BufState>, i: nat): (r: seq<BufState>)
  {
    if i < |s| then s[i := Free] else s
  }

  /** Buffer ownership after flip_page. */
  function FlipStates(s: seq<BufState>, index: nat, queued: bool, a: seq<DqAnswer>): (r: seq<BufState>)
    requires |a| == DEQUEUE_TIMES_IN_SHOW
  {
    DequeueStates(Enqueue(s, index, queued), a)
  }

  /** Buffer ownership after the dequeue attempts: the buffer the last
      attempt got back, if it got one, is the driver's again. */
  function DequeueStates(s: seq<BufState>, a: seq<DqAnswer>): (r: seq<BufState>)
    requires |a| == DEQUEUE_TIMES_IN_SHOW
  {
    var last := a[Attempts(a) - 1];
    if last.Dequeued? then Release(s, last.index) else s
  }

  /** The buffer the descriptor (and so the plane pointers) names after
      flip_page. */
  function FlipIndex(a: seq<DqAnswer>): (r: nat)
    requires |a| == DEQUEUE_TIMES_IN_SHOW
  {
    IndexAfter(a, Attempts(a))
  }

  /** A page flip from a steady state whose QBUF succeeds and whose
      dequeue returns a granted buffer ends steady again, with the returned
      buffer as the one the driver draws into next. */
  lemma FlipKeepsSteady(s: seq<BufState>, c: nat, a: seq<DqAnswer>)
    requires |a| == DEQUEUE_TIMES_IN_SHOW && Steady(s, c)
    requires a[Attempts(a) - 1].Dequeued? && a[Attempts(a) - 1].index < |s|
    ensures Steady(FlipStates(s, c, true, a), FlipIndex(a))
    ensures FlipIndex(a) == a[Attempts(a) - 1].index
  {
  }

  /** When all DEQUEUE_TIMES_IN_SHOW attempts fail after a successful QBUF,
      the device holds every buffer, yet the plane pointers are set up on
      the descriptor's index; with no index written that is buffer 0, which
      the device holds, so the next picture is drawn into a queued buffer. */
  lemma FlipExhausted(s: seq<BufState>, c: nat, a: seq<DqAnswer>)
    requires |a| == DEQUEUE_TIMES_IN_SHOW && Steady(s, c)
    requires forall j :: 0 <= j < DEQUEUE_TIMES_IN_SHOW ==> a[j].Failed?
    ensures Attempts(a) == DEQUEUE_TIMES_IN_SHOW
    ensures forall j :: 0 <= j < |s| ==> FlipStates(s, c, true, a)[j] == Queued
    ensures (forall j :: 0 <= j < DEQUEUE_TIMES_IN_SHOW ==> a[j].wrote.None?) ==>
      FlipIndex(a) == 0 && FlipStates(s, c, true, a)[0] == Queued
  {
    if forall j :: 0 <= j < DEQUEUE_TIMES_IN_SHOW ==> a[j].wrote.None? {
      IndexAfterNoWrite(a, DEQUEUE_TIMES_IN_SHOW);
    }
  }

  /** When QBUF fails and all DEQUEUE_TIMES_IN_SHOW attempts fail too,
      nothing changes hands: the driver keeps the buffer it drew into. With
      no index written the plane pointers move to buffer 0, which the driver
      owns exactly when it was that buffer. */
  lemma FlipExhaustedQueueFailed(s: seq<BufState>, c: nat, a: seq<DqAnswer>)
    requires |a| == DEQUEUE_TIMES_IN_SHOW && Steady(s, c)
    requires forall j :: 0 <= j < DEQUEUE_TIMES_IN_SHOW ==> a[j].Failed?
    ensures Attempts(a) == DEQUEUE_TIMES_IN_SHOW
    ensures FlipStates(s, c, false, a) == s
    ensures (forall j :: 0 <= j < DEQUEUE_TIMES_IN_SHOW ==> a[j].wrote.None?) ==>
      FlipIndex(a) == 0 && (FlipStates(s, c, false, a)[0] == Free <==> c == 0)
  {
    if forall j :: 0 <= j < DEQUEUE_TIMES_IN_SHOW ==> a[j].wrote.None? {
      IndexAfterNoWrite(a, DEQUEUE_TIMES_IN_SHOW);
    }
  }

  /** A failed QBUF leaves the buffer with the driver, so a later successful
      dequeue leaves two buffers with the driver and the state is no longer
      steady. */
  lemma FlipQueueFailureBreaksSteady(s: seq<BufState>, c: nat, a: seq<DqAnswer>)
    requires |a| == DEQUEUE_TIMES_IN_SHOW && Steady(s, c)
    requires a[Attempts(a) - 1].Dequeued? && a[Attempts(a) - 1].index < |s|
    requires a[Attempts(a) - 1].index != c
    ensures FlipStates(s, c, false, a)[c] == Free
    ensures FlipStates(s, c, false, a)[a[Attempts(a) - 1].index] == Free
    ensures forall c' :: !Steady(FlipStates(s, c, false, a), c')
  {
  }
}
