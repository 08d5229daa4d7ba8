/** Conversion between form coordinates (origin-aware, in points) and viewport pixels for the
    signature-box overlays (assets/signable-editor/coordinates.ts). */
module Coordinates {

  /** The PDF.js viewport of one page: its size in pixels, its scale, and `convertToPdfPoint`,
      which the viewer library computes and the model takes as given. */
  datatype Viewport = Viewport(
    width: real,
    height: real,
    scale: real,
    convertToPdfPoint: (real, real) -> (real, real))

  datatype Point = Point(x: real, y: real)

  /** `viewport.scale || 1.5`: a zero scale falls back to 1.5. */
  function EffectiveScale(vp: Viewport): (s: real)
    ensures s != 0.0
    ensures vp.scale != 0.0 ==> s == vp.scale
    ensures vp.scale == 0.0 ==> s == 1.5
  {
    if vp.scale != 0.0 then vp.scale else 1.5
  }

  /** `pdfToFormCoords`: the reflection that turns a box corner in PDF space (origin bottom left)
      into the corner the form shows for `origin`. The same switch appears in `formToViewport`
      and `viewportToForm`; each branch is a reflection, so it also maps back. */
  function PdfToFormCoords(pageW: real, pageH: real, p: Point, w: real, h: real, origin: string): Point {
    var flipX := origin == "top_right" || origin == "bottom_right";
    var flipY := origin == "top_left" || origin == "top_right";
    Point(if flipX then pageW - p.x - w else p.x, if flipY then pageH - p.y - h else p.y)
  }

  /** The four origins: `top_left` flips y, `top_right` flips both, `bottom_right` flips x, any
      other origin (`bottom_left` and unknown names) keeps the point. */
  lemma PdfToFormCoordsCases(pageW: real, pageH: real, p: Point, w: real, h: real, origin: string)
    ensures origin == "top_left" ==> PdfToFormCoords(pageW, pageH, p, w, h, origin) == Point(p.x, pageH - p.y - h)
    ensures origin == "top_right" ==> PdfToFormCoords(pageW, pageH, p, w, h, origin) == Point(pageW - p.x - w, pageH - p.y - h)
    ensures origin == "bottom_right" ==> PdfToFormCoords(pageW, pageH, p, w, h, origin) == Point(pageW - p.x - w, p.y)
    ensures origin !in {"top_left", "top_right", "bottom_right"} ==> PdfToFormCoords(pageW, pageH, p, w, h, origin) == p
  {
  }

  /** Applying the conversion twice with the same page, size and origin gives the point back. */
  lemma PdfToFormCoordsInvolution(pageW: real, pageH: real, p: Point, w: real, h: real, origin: string)
    ensures PdfToFormCoords(pageW, pageH, PdfToFormCoords(pageW, pageH, p, w, h, origin), w, h, origin) == p
  {
  }

  /** `formToViewport`: the corner in PDF space, scaled, with the y axis turned downwards. */
  function FormToViewport(vp: Viewport, form: Point, w: real, h: real, origin: string): Point {
    var s := EffectiveScale(vp);
    var pdf := PdfToFormCoords(vp.width / s, vp.height / s, form, w, h, origin);
    Point(pdf.x * s, vp.height - (pdf.y + h) * s)
  }

  /** `viewportToForm`: the viewer maps the bottom-left pixel of the box to PDF space, and the
      origin's reflection turns it into form coordinates. */
  function ViewportToForm(vp: Viewport, left: real, top: real, w: real, h: real, origin: string): Point {
    var s := EffectiveScale(vp);
    var pdf := vp.convertToPdfPoint(left, top + h * s);
    PdfToFormCoords(vp.width / s, vp.height / s, Point(pdf.0, pdf.1), w, h, origin)
  }

  /** With the bottom-left origin, and with any name that is not one of the other three,
      `vpX = x·s` and `vpY = height − (y + h)·s`. */
  lemma FormToViewportBottomLeft(vp: Viewport, form: Point, w: real, h: real, origin: string)
    requires origin !in {"top_left", "top_right", "bottom_right"}
    ensures FormToViewport(vp, form, w, h, origin)
      == Point(form.x * EffectiveScale(vp), vp.height - (form.y + h) * EffectiveScale(vp))
  {
  }

  /** A box at the top-left corner of a top-left form sits at pixel (0, 0). */
  lemma FormToViewportTopLeftCorner(vp: Viewport, w: real, h: real)
    ensures FormToViewport(vp, Point(0.0, 0.0), w, h, "top_left") == Point(0.0, 0.0)
  {
    var s := EffectiveScale(vp);
    assert (vp.height / s - h + h) * s == vp.height;
  }

  /** A viewport whose `convertToPdfPoint` is the plain inverse of its scaling and y flip, as
      PDF.js computes it for an unrotated page. */
  ghost predicate UnrotatedViewport(vp: Viewport) {
    forall a: real, b: real ::
      vp.convertToPdfPoint(a, b) == (a / EffectiveScale(vp), (vp.height - b) / EffectiveScale(vp))
  }

  /** Converting a form position to pixels and back gives the position again, for every origin. */
  lemma ViewportToFormOfFormToViewport(vp: Viewport, form: Point, w: real, h: real, origin: string)
    requires UnrotatedViewport(vp)
    ensures var px := FormToViewport(vp, form, w, h, origin);
      ViewportToForm(vp, px.x, px.y, w, h, origin) == form
  {
    var s := EffectiveScale(vp);
    var pdf := PdfToFormCoords(vp.width / s, vp.height / s, form, w, h, origin);
    var px := FormToViewport(vp, form, w, h, origin);
    var back := vp.convertToPdfPoint(px.x, px.y + h * s);
    assert back.0 == pdf.x by {
      assert (pdf.x * s) / s == pdf.x;
    }
    assert back.1 == pdf.y by {
      calc {
        back.1;
        (vp.height - (vp.height - (pdf.y + h) * s + h * s)) / s;
        { assert vp.height - (vp.height - (pdf.y + h) * s + h * s) == pdf.y * s; }
        (pdf.y * s) / s;
        pdf.y;
      }
    }
    PdfToFormCoordsInvolution(vp.width / s, vp.height / s, form, w, h, origin);
  }

  /** A zero scale converts exactly as the scale 1.5 does, in both directions. */
  lemma ZeroScaleIsOnePointFive(vp: Viewport, form: Point, left: real, top: real, w: real, h: real, origin: string)
    requires vp.scale == 0.0
    ensures FormToViewport(vp, form, w, h, origin) == FormToViewport(vp.(scale := 1.5), form, w, h, origin)
    ensures ViewportToForm(vp, left, top, w, h, origin) == ViewportToForm(vp.(scale := 1.5), left, top, w, h, origin)
  {
    var vp' := vp.(scale := 1.5);
    assert EffectiveScale(vp) == EffectiveScale(vp') == 1.5;
    assert vp'.convertToPdfPoint == vp.convertToPdfPoint;
    assert vp'.convertToPdfPoint(left, top + h * 1.5) == vp.convertToPdfPoint(left, top + h * 1.5);
  }
}
