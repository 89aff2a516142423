/**
 * The draw filter stage: on every image buffer it consults the queue of detection
 * batches, keeps only the newest one, discards it when it is stale for the frame, and
 * otherwise draws it, either in software into the NV12 frame or as an OSD region sent
 * to the attached encoder flow. The filter is a value here; every operation returns
 * the filter's next state.
 */
module DrawFilter {
  import opened Wrappers
  import opened Raster
  import opened Image
  import opened Geometry
  import opened ResultQueue
  import opened Nv12
  import opened Osd

  /** Linux errno value of EINVAL; Process returns its negation. */
  const EINVAL := 22

  /** Outline thickness when the configuration does not set one. */
  const DefaultThick := 2

  /** The packed YUV colour of the software outline (Y 0x4C, U 0x54, V 0xFF). */
  const YuvPixelRed := 0x4C * 0x1_0000 + 0x54 * 0x100 + 0xFF

  /** An opaque, non-null handle of the encoder flow that accepts OSD regions. */
  type Handle = nat

  datatype MediaType = Image | OtherMedia

  /** A media buffer as the filter sees it: its type, image metadata, capture clock (microseconds) and bytes. */
  datatype MediaBuffer = MediaBuffer(kind: MediaType, info: ImageInfo, clock: int, data: seq<byte>)

  /**
   * The filter's state: the two configuration values it reads (whether the hardware
   * path is wanted, and the outline thickness), the batch queue, oldest first, and the
   * attached flow handle, if any.
   */
  datatype Filter = Filter(needHwDraw: bool, thick: int, queue: seq<Batch>, handler: Option<Handle>)

  /** A freshly constructed filter with no configuration string entries. */
  const Defaults := Filter(false, DefaultThick, [], None)

  predicate IsImage(b: Option<MediaBuffer>) {
    b.Some? && b.value.kind == Image
  }

  /** The hardware path is taken exactly when a handle is attached and it was asked for. */
  predicate HwPath(f: Filter) {
    f.handler.Some? && f.needHwDraw
  }

  // ---------------------------------------------------------------------------
  // The queue policy of Process
  // ---------------------------------------------------------------------------

  datatype Step = Idle | DropStale | DrawHardware(batch: Batch) | DrawSoftware(batch: Batch)

  datatype Decision = Decision(step: Step, queue: seq<Batch>)

  /**
   * The part of Process that decides what to draw for a frame stamped `clock`. An
   * empty queue draws nothing. Otherwise only the newest batch is kept; when it is
   * stale it is popped and nothing is drawn, and when it is on time it is drawn by
   * exactly one renderer and stays queued for the next frame.
   */
  function Decide(queue: seq<Batch>, clock: int, hwPath: bool): (d: Decision)
    requires |queue| > 0 ==> |Last(queue)| > 0
    ensures |queue| == 0 ==> d == Decision(Idle, queue)
    ensures |queue| > 0 && IsStale(Last(queue)[0].timeval, clock) ==> d == Decision(DropStale, [])
    ensures |queue| > 0 && !IsStale(Last(queue)[0].timeval, clock) ==>
      && d.queue == [Last(queue)]
      && d.step == if hwPath then DrawHardware(Last(queue)) else DrawSoftware(Last(queue))
  {
    if |queue| == 0 then Decision(Idle, queue)
    else
      var kept := DropToNewest(queue);
      var batch := kept[0];
      if IsStale(batch[0].timeval, clock) then Decision(DropStale, kept[1..])
      else Decision(if hwPath then DrawHardware(batch) else DrawSoftware(batch), kept)
  }

  // ---------------------------------------------------------------------------
  // Software drawing: draw_rect and DoDraw
  // ---------------------------------------------------------------------------

  /** Every box clamped to a `w` x `h` frame for an outline of width `thick`. */
  function ClampAll(boxes: seq<Rect>, w: int, h: int, thick: int): (rs: seq<Rect>)
    ensures |rs| == |boxes| && forall i :: 0 <= i < |boxes| ==> rs[i] == Clamp(boxes[i], w, h, thick)
    ensures forall i :: 0 <= i < |rs| ==> Clamped(rs[i], w, h, thick)
  {
    seq(|boxes|, i requires 0 <= i < |boxes| => Clamp(boxes[i], w, h, thick))
  }

  /** What the software renderer needs of a frame: NV12 frames need a positive thickness and all reachable bytes. */
  predicate Drawable(info: ImageInfo, size: int, thick: int) {
    info.pixFmt == Nv12 ==> thick >= 1 && size >= FrameLen(info.width, info.height)
  }

  /** On the software band of any of `rects`. */
  predicate SwCovered(rects: seq<Rect>, thick: int, j: int, k: int)
    decreases |rects|
  {
    |rects| > 0 && (SwCovered(rects[..|rects| - 1], thick, j, k) || InBand(rects[|rects| - 1], thick, j, k))
  }

  /** Some pixel sharing chroma pair (row, c) is on the software band of one of `rects`. */
  predicate SwPairCovered(rects: seq<Rect>, thick: int, row: int, c: int) {
    SwCovered(rects, thick, 2 * row, 2 * c) || SwCovered(rects, thick, 2 * row, 2 * c + 1)
    || SwCovered(rects, thick, 2 * row + 1, 2 * c) || SwCovered(rects, thick, 2 * row + 1, 2 * c + 1)
  }

  /**
   * `out` is `data` with the red outlines of `rects` drawn: nothing changes on a frame
   * that is not NV12; on an NV12 frame a luma byte is red exactly on a band, a chroma
   * pair (for even widths) is red exactly when a pixel sharing it is on a band, no other
   * chroma value appears, and nothing past the frame changes. The offset bounds in the
   * ranges hold for every pixel and pair of a drawable frame (`Nv12.PixelInFrame`,
   * `Nv12.ChromaBounds`).
   */
  ghost predicate SoftwareDrawn(out: seq<byte>, data: seq<byte>, info: ImageInfo, rects: seq<Rect>, thick: int)
    requires |out| == |data| && Drawable(info, |data|, thick)
  {
    var w, h := info.width, info.height;
    if info.pixFmt != Nv12 then out == data
    else
      && (forall j, k | 0 <= j < h && 0 <= k < w && PlaneIndex(w, j, k) < |out| ::
            out[PlaneIndex(w, j, k)] ==
              if SwCovered(rects, thick, j, k) then LumaOf(YuvPixelRed) else data[PlaneIndex(w, j, k)])
      && (w % 2 == 0 ==> forall row, c | 0 <= row < (h + 1) / 2 && 0 <= c < w / 2
                                         && 0 <= UIndex(w, h, row, c) && VIndex(w, h, row, c) < |out| ::
            && out[UIndex(w, h, row, c)] ==
                 (if SwPairCovered(rects, thick, row, c) then CbOf(YuvPixelRed) else data[UIndex(w, h, row, c)])
            && out[VIndex(w, h, row, c)] ==
                 (if SwPairCovered(rects, thick, row, c) then CrOf(YuvPixelRed) else data[VIndex(w, h, row, c)]))
      && ChromaOnly(out, data, w, h, CbOf(YuvPixelRed), CrOf(YuvPixelRed))
      && TailKept(out, data, w, h)
  }

  /** The outline colour splits into the documented channel bytes. */
  lemma RedChannels()
    ensures LumaOf(YuvPixelRed) == 0x4C && CbOf(YuvPixelRed) == 0x54 && CrOf(YuvPixelRed) == 0xFF
  {
  }

  /**
   * draw_rect: clamps `rect` to the frame, then draws it in red when the frame is
   * NV12; any other format is left untouched.
   */
  method DrawRect(info: ImageInfo, data: seq<byte>, rect: Rect, thick: int) returns (out: seq<byte>)
    requires Drawable(info, |data|, thick)
    ensures |out| == |data|
    ensures SoftwareDrawn(out, data, info, [Clamp(rect, info.width, info.height, thick)], thick)
  {
    var w, h := info.width, info.height;
    var clamped := Clamp(rect, w, h, thick);
    if info.pixFmt == Nv12 {
      out := DrawNv12Rect(data, w, h, clamped, thick, YuvPixelRed);
      SingleRectDrawn(out, data, info, clamped, thick);
    } else {
      out := data;
    }
  }

  /**
   * DoDraw: draws every box of the batch, in order, through draw_rect. The frame ends up
   * with the outlines of all the clamped boxes and nothing else changed.
   */
  method DoDraw(info: ImageInfo, data: seq<byte>, batch: Batch, thick: int) returns (out: seq<byte>)
    requires Drawable(info, |data|, thick)
    ensures |out| == |data|
    ensures SoftwareDrawn(out, data, info, ClampAll(Boxes(batch), info.width, info.height, thick), thick)
  {
    ghost var rects := ClampAll(Boxes(batch), info.width, info.height, thick);
    out := data;
    NothingDrawn(data, info, rects, thick);
    var i := 0;
    while i < |batch|
      invariant 0 <= i <= |batch| && |out| == |data|
      invariant SoftwareDrawn(out, data, info, rects[..i], thick)
    {
      ghost var prev := out;
      out := DrawRect(info, out, batch[i].box, thick);
      ComposeDrawn(prev, out, data, info, rects, i, thick);
      i := i + 1;
    }
    assert rects[..i] == rects;
  }

  lemma SingleRectDrawn(out: seq<byte>, data: seq<byte>, info: ImageInfo, r: Rect, thick: int)
    requires info.pixFmt == Nv12 && |out| == |data| && Drawable(info, |data|, thick)
    requires LumaDrawn(out, data, info.width, info.height, r, thick, LumaOf(YuvPixelRed))
    requires info.width % 2 == 0 ==>
      ChromaDrawn(out, data, info.width, info.height, r, thick, CbOf(YuvPixelRed), CrOf(YuvPixelRed))
    requires ChromaOnly(out, data, info.width, info.height, CbOf(YuvPixelRed), CrOf(YuvPixelRed))
    requires TailKept(out, data, info.width, info.height)
    ensures SoftwareDrawn(out, data, info, [r], thick)
  {
    assert [r][..0] == [];
    assert forall j, k :: SwCovered([r], thick, j, k) == InBand(r, thick, j, k);
  }

  lemma NothingDrawn(data: seq<byte>, info: ImageInfo, rects: seq<Rect>, thick: int)
    requires Drawable(info, |data|, thick)
    ensures SoftwareDrawn(data, data, info, rects[..0], thick)
  {
    var none := rects[..0];
    assert forall j, k :: !SwCovered(none, thick, j, k);
  }

  lemma ComposeDrawn(prev: seq<byte>, next: seq<byte>, data: seq<byte>, info: ImageInfo, rects: seq<Rect>, i: int, thick: int)
    requires 0 <= i < |rects| && |prev| == |data| && |next| == |data| && Drawable(info, |data|, thick)
    requires SoftwareDrawn(prev, data, info, rects[..i], thick)
    requires SoftwareDrawn(next, prev, info, [rects[i]], thick)
    ensures SoftwareDrawn(next, data, info, rects[..i + 1], thick)
  {
    var before, after := rects[..i], rects[..i + 1];
    assert after[..i] == before && after[i] == rects[i];
    assert [rects[i]][..0] == [];
    assert forall j, k :: SwCovered(after, thick, j, k) == (SwCovered(before, thick, j, k) || InBand(rects[i], thick, j, k));
    assert forall j, k :: SwCovered([rects[i]], thick, j, k) == InBand(rects[i], thick, j, k);
  }

  // ---------------------------------------------------------------------------
  // Process
  // ---------------------------------------------------------------------------

  /**
   * What Process needs to be defined once both buffers are images (otherwise it
   * returns before reading the queue): the newest batch has a first result (its
   * timestamp is read), and when that batch is on time and goes to the software path
   * the frame must be drawable.
   */
  predicate ProcessDefined(f: Filter, input: Option<MediaBuffer>, output: Option<MediaBuffer>) {
    IsImage(input) && IsImage(output) && |f.queue| > 0 ==>
      && |Last(f.queue)| > 0
      && (!IsStale(Last(f.queue)[0].timeval, input.value.clock) && !HwPath(f) ==>
            Drawable(input.value.info, |input.value.data|, f.thick))
  }

  /**
   * One frame through the filter. `allocOk` is the answer of the bitmap allocator
   * on the hardware path. Returns the status, the filter's next state, the output
   * buffer (the input buffer itself, drawn on in place) and the OSD region sent to the
   * attached flow, if any.
   */
  method Process(f: Filter, input: Option<MediaBuffer>, output: Option<MediaBuffer>, allocOk: bool)
    returns (ret: int, f': Filter, out: Option<MediaBuffer>, sent: Option<OsdRegion>)
    requires ProcessDefined(f, input, output)
    ensures !(IsImage(input) && IsImage(output)) ==> ret == -EINVAL && f' == f && out == output && sent.None?
    ensures IsImage(input) && IsImage(output) ==>
      && ret == 0 && out.Some?
      && out.value.(data := input.value.data) == input.value
      && |out.value.data| == |input.value.data|
    ensures IsImage(input) && IsImage(output) && |f.queue| == 0 ==> f' == f && out == input && sent.None?
    ensures IsImage(input) && IsImage(output) && |f.queue| > 0 ==>
      var newest := Last(f.queue);
      var stale := IsStale(newest[0].timeval, input.value.clock);
      && f' == f.(queue := if stale then [] else [newest])
      && (stale ==> out == input && sent.None?)
      && (!stale && HwPath(f) ==> out == input && HwDrawSends(sent, newest, f.thick, allocOk))
      && (!stale && !HwPath(f) ==>
            && sent.None?
            && SoftwareDrawn(out.value.data, input.value.data, input.value.info,
                             ClampAll(Boxes(newest), input.value.info.width, input.value.info.height, f.thick), f.thick))
  {
    if !IsImage(input) || !IsImage(output) {
      return -EINVAL, f, output, None;
    }
    out := input;
    sent := None;
    ret := 0;
    var src := input.value;
    var d := Decide(f.queue, src.clock, HwPath(f));
    f' := f.(queue := d.queue);
    match d.step
    case Idle =>
    case DropStale =>
    case DrawHardware(batch) =>
      sent := DoHwDraw(batch, f.thick, allocOk);
    case DrawSoftware(batch) =>
      var data := DoDraw(src.info, src.data, batch, f.thick);
      out := Some(src.(data := data));
  }

  // ---------------------------------------------------------------------------
  // IoCtrl
  // ---------------------------------------------------------------------------

  datatype SubRequestKind = NnInfo | OtherSubRequest

  /** The control requests the filter understands, with their payloads. */
  datatype Request =
    | SetHandler(handler: Option<Handle>)
    | GetHandler
    | SubRequest(sub: SubRequestKind, infos: Option<seq<DetectionResult>>, size: int)
    | UnknownRequest

  datatype Reply = Reply(filter: Filter, ret: int)

  /**
   * The copy loop of a detection sub-request: `acc` holds the results copied so far,
   * which are the first `|acc|` of `infos`; each step appends the next one until
   * `size` results are copied. A loop that has nothing left to do returns `acc`.
   */
  function CopyResults(infos: seq<DetectionResult>, size: int, acc: Batch): (b: Batch)
    requires size <= |infos| && |acc| <= |infos| && acc == infos[..|acc|]
    ensures size <= |acc| ==> b == acc
    ensures size > |acc| ==> b == infos[..size]
    decreases size - |acc|
  {
    if |acc| < size then
      assert acc + [infos[|acc|]] == infos[..|acc| + 1];
      CopyResults(infos, size, acc + [infos[|acc|]])
    else acc
  }

  /**
   * The batch a detection sub-request carries: the copy loop run from an empty list,
   * which yields the first `size` results, and none when the array is null or `size`
   * is not positive.
   */
  function ReceivedBatch(infos: Option<seq<DetectionResult>>, size: int): (b: Batch)
    requires infos.Some? ==> size <= |infos.value|
    ensures infos.None? || size <= 0 ==> b == []
    ensures infos.Some? && size > 0 ==> b == infos.value[..size]
  {
    if infos.Some? then CopyResults(infos.value, size, []) else []
  }

  /**
   * The control channel. Setting the handler replaces it; reading it changes
   * nothing; a detection sub-request appends its batch at the back of the queue; any
   * other sub-request is accepted and ignored; an unknown request returns -1.
   */
  function IoCtrl(f: Filter, req: Request): (reply: Reply)
    requires req.SubRequest? && req.sub == NnInfo && req.infos.Some? ==> req.size <= |req.infos.value|
    ensures reply.ret == if req.UnknownRequest? then -1 else 0
    ensures reply.filter.needHwDraw == f.needHwDraw && reply.filter.thick == f.thick
    ensures reply.filter.handler == if req.SetHandler? then req.handler else f.handler
    ensures req.SubRequest? && req.sub == NnInfo ==>
      reply.filter.queue == Push(f.queue, ReceivedBatch(req.infos, req.size))
    ensures !(req.SubRequest? && req.sub == NnInfo) ==> reply.filter.queue == f.queue
  {
    match req
    case SetHandler(h) => Reply(f.(handler := h), 0)
    case GetHandler => Reply(f, 0)
    case SubRequest(sub, infos, size) =>
      if sub == NnInfo then Reply(f.(queue := Push(f.queue, ReceivedBatch(infos, size))), 0)
      else Reply(f, 0)
    case UnknownRequest => Reply(f, -1)
  }

  // ---------------------------------------------------------------------------
  // Properties across calls
  // ---------------------------------------------------------------------------

  /**
   * A batch pushed through the control channel is what the next frame draws, whatever
   * was queued before, as long as it is on time for that frame.
   */
  lemma PushedBatchDrawnNext(f: Filter, infos: seq<DetectionResult>, size: int, clock: int)
    requires 0 < size <= |infos|
    requires !IsStale(infos[0].timeval, clock)
    ensures var f1 := IoCtrl(f, SubRequest(NnInfo, Some(infos), size)).filter;
      var d := Decide(f1.queue, clock, HwPath(f1));
      && d.queue == [infos[..size]]
      && d.step == if HwPath(f) then DrawHardware(infos[..size]) else DrawSoftware(infos[..size])
  {
  }

  /** A stale batch is never drawn later: the queue is empty afterwards, so the next frame without a push draws nothing. */
  lemma StaleBatchNotReused(q: seq<Batch>, clock: int, nextClock: int, hwPath: bool)
    requires |q| > 0 && |Last(q)| > 0
    requires IsStale(Last(q)[0].timeval, clock)
    ensures Decide(Decide(q, clock, hwPath).queue, nextClock, hwPath) == Decision(Idle, [])
  {
  }
}
