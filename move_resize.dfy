/** Pixel-to-PDF rectangle conversion and the move/resize clamping of the AcroForm field overlay
    (assets/acroform-editor/acroform-move-resize.ts). */
module MoveResize {
  import opened Wrappers

  function Max(a: real, b: real): real { if a >= b then a else b }
  function Min(a: real, b: real): real { if a <= b then a else b }

  /** `viewport.scale ?? 1.5`: only a missing scale falls back; a zero scale stays zero. */
  function ScaleOr(scale: Option<real>): real {
    scale.GetOr(1.5)
  }

  /** A PDF rectangle `[llx, lly, urx, ury]` in points, origin bottom left. */
  datatype PdfRect = PdfRect(llx: real, lly: real, urx: real, ury: real)

  /** `viewportPixelsToPdfRect`. With a zero scale the source divides by zero and produces
      non-finite numbers; the model answers `None` there. */
  function ViewportPixelsToPdfRect(scale: Option<real>, vpHeight: real, left: real, top: real,
                                   width: real, height: real): (r: Option<PdfRect>)
    ensures r.None? <==> ScaleOr(scale) == 0.0
    ensures r.Some? ==> r.value.llx * ScaleOr(scale) == left
    ensures r.Some? ==> r.value.ury * ScaleOr(scale) == vpHeight - top
  {
    var s := ScaleOr(scale);
    if s == 0.0 then None
    else Some(PdfRect(left / s, (vpHeight - (top + height)) / s, (left + width) / s, (vpHeight - top) / s))
  }

  /** The rectangle is `width/s` wide and `height/s` tall, so a box of non-negative height at a
      positive scale has `ury >= lly`. */
  lemma PdfRectSize(scale: Option<real>, vpHeight: real, left: real, top: real, width: real, height: real)
    requires ScaleOr(scale) != 0.0
    ensures var r := ViewportPixelsToPdfRect(scale, vpHeight, left, top, width, height).value;
      r.urx - r.llx == width / ScaleOr(scale) && r.ury - r.lly == height / ScaleOr(scale)
    ensures var r := ViewportPixelsToPdfRect(scale, vpHeight, left, top, width, height).value;
      ScaleOr(scale) > 0.0 && height >= 0.0 ==> r.ury >= r.lly
  {
    var s := ScaleOr(scale);
    var r := ViewportPixelsToPdfRect(scale, vpHeight, left, top, width, height).value;
    assert r.urx - r.llx == ((left + width) - left) / s;
    assert r.ury - r.lly == ((vpHeight - top) - (vpHeight - (top + height))) / s;
    if s > 0.0 && height >= 0.0 {
      assert height / s >= 0.0;
    }
  }

  /** A missing scale converts as the scale 1.5 does. */
  lemma MissingScaleIsOnePointFive(vpHeight: real, left: real, top: real, width: real, height: real)
    ensures ViewportPixelsToPdfRect(None, vpHeight, left, top, width, height)
      == ViewportPixelsToPdfRect(Some(1.5), vpHeight, left, top, width, height)
  {
  }

  // ---------------------------------------------------------------- move and resize

  /** The overlay's edges in viewport pixels when the drag started. */
  datatype Edges = Edges(left: real, top: real, right: real, bottom: real)

  /** The overlay's new position and size. */
  datatype Overlay = Overlay(left: real, top: real, width: real, height: real)

  /** Move mode: the size is kept and the corner is clamped into the viewport. */
  function MoveOverlay(vpW: real, vpH: real, start: Edges, dx: real, dy: real): (o: Overlay)
    ensures o.width == start.right - start.left && o.height == start.bottom - start.top
    ensures o.left >= 0.0 && o.top >= 0.0
    ensures o.width <= vpW ==> o.left + o.width <= vpW
    ensures o.height <= vpH ==> o.top + o.height <= vpH
    ensures 0.0 <= start.left + dx && start.left + dx + o.width <= vpW ==> o.left == start.left + dx
    ensures 0.0 <= start.top + dy && start.top + dy + o.height <= vpH ==> o.top == start.top + dy
  {
    var w := start.right - start.left;
    var h := start.bottom - start.top;
    Overlay(Max(0.0, Min(vpW - w, start.left + dx)), Max(0.0, Min(vpH - h, start.top + dy)), w, h)
  }

  /** Resize mode: the corner handle named by `handle` moves two edges; the opposite edges stay.
      A moved edge never passes the viewport and never comes closer than the minimum size to the
      opposite edge unless the viewport leaves no room. Any other handle changes nothing. */
  function ResizeEdges(vpW: real, vpH: real, start: Edges, handle: string, dx: real, dy: real,
                       minPxW: real, minPxH: real): (e: Edges)
    ensures handle !in {"se", "sw", "ne", "nw"} ==> e == start
    ensures e.right == start.right || (e.right <= vpW && (start.left + minPxW <= vpW ==> e.right >= start.left + minPxW))
    ensures e.bottom == start.bottom || (e.bottom <= vpH && (start.top + minPxH <= vpH ==> e.bottom >= start.top + minPxH))
    ensures e.left == start.left || (e.left >= 0.0 && (start.right - minPxW >= 0.0 ==> e.left <= start.right - minPxW))
    ensures e.top == start.top || (e.top >= 0.0 && (start.bottom - minPxH >= 0.0 ==> e.top <= start.bottom - minPxH))
    ensures handle in {"se", "ne"} ==> e.left == start.left
    ensures handle in {"sw", "nw"} ==> e.right == start.right
    ensures handle in {"se", "sw"} ==> e.top == start.top
    ensures handle in {"ne", "nw"} ==> e.bottom == start.bottom
  {
    var right := Min(vpW, Max(start.left + minPxW, start.right + dx));
    var bottom := Min(vpH, Max(start.top + minPxH, start.bottom + dy));
    var left := Max(0.0, Min(start.right - minPxW, start.left + dx));
    var top := Max(0.0, Min(start.bottom - minPxH, start.top + dy));
    if handle == "se" then start.(right := right, bottom := bottom)
    else if handle == "sw" then start.(left := left, bottom := bottom)
    else if handle == "ne" then start.(right := right, top := top)
    else if handle == "nw" then start.(left := left, top := top)
    else start
  }

  /** The state a drag keeps: the mode, the handle grabbed, the start edges and the viewport. */
  datatype DragState = DragState(
    moving: bool,
    handle: string,
    start: Edges,
    vpWidth: real,
    vpHeight: real,
    scale: Option<real>)

  /** `onMove`: the overlay after a drag by `(dx, dy)` pixels; the minimum sizes are in
      points (12 each unless configured) and are scaled to pixels. */
  function OnMove(st: DragState, dx: real, dy: real, minFieldWidthPt: real, minFieldHeightPt: real): Overlay
  {
    var scale := ScaleOr(st.scale);
    if st.moving then MoveOverlay(st.vpWidth, st.vpHeight, st.start, dx, dy)
    else
      var e := ResizeEdges(st.vpWidth, st.vpHeight, st.start, st.handle, dx, dy,
                           minFieldWidthPt * scale, minFieldHeightPt * scale);
      Overlay(e.left, e.top, e.right - e.left, e.bottom - e.top)
  }

  /** Moving keeps the size and clamps the corner into the viewport. */
  lemma MoveKeepsSize(st: DragState, dx: real, dy: real, minW: real, minH: real)
    requires st.moving
    ensures var o := OnMove(st, dx, dy, minW, minH);
      o.width == st.start.right - st.start.left && o.height == st.start.bottom - st.start.top
      && o.left >= 0.0 && o.top >= 0.0
      && (o.width <= st.vpWidth ==> o.left + o.width <= st.vpWidth)
      && (o.height <= st.vpHeight ==> o.top + o.height <= st.vpHeight)
  {
  }

  /** A handle other than the four corners leaves the overlay where it was. */
  lemma UnknownHandleKeepsOverlay(st: DragState, dx: real, dy: real, minW: real, minH: real)
    requires !st.moving && st.handle !in {"se", "sw", "ne", "nw"}
    ensures OnMove(st, dx, dy, minW, minH)
      == Overlay(st.start.left, st.start.top, st.start.right - st.start.left, st.start.bottom - st.start.top)
  {
  }

  /** A resize from edges inside the viewport keeps the overlay inside the viewport. */
  lemma ResizeStaysInViewport(st: DragState, dx: real, dy: real, minW: real, minH: real)
    requires !st.moving
    requires 0.0 <= st.start.left && st.start.right <= st.vpWidth
    requires 0.0 <= st.start.top && st.start.bottom <= st.vpHeight
    ensures var o := OnMove(st, dx, dy, minW, minH);
      o.left >= 0.0 && o.top >= 0.0 && o.left + o.width <= st.vpWidth && o.top + o.height <= st.vpHeight
  {
  }
}
