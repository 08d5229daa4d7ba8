/** The pure helpers of the patch applier: the field-type synonym tables, the CSS-family to
    standard-font table and the default-appearance (/DA) string it writes. */
module AcroFormPatchRules {
  import opened Wrappers
  import opened Text
  import opened Values

  /** The /FT values the applier can write. */
  predicate IsFieldTypeName(t: string) {
    t == "/Tx" || t == "/Btn" || t == "/Ch" || t == "/Sig"
  }

  /** Python's `str(x).strip().lower()`. */
  function Normalised(v: Value, py: PyRuntime): string {
    PyLower(PyStrip(PyStr(v, py)))
  }

  /** The `fieldType` synonym table, applied to the normalised value. */
  function FieldTypeSynonym(s: string): (r: Option<string>)
    ensures r.Some? ==> IsFieldTypeName(r.value)
  {
    if s == "tx" || s == "text" then Some("/Tx")
    else if s == "btn" || s == "button" || s == "checkbox" then Some("/Btn")
    else if s == "ch" || s == "choice" || s == "select" then Some("/Ch")
    else if s == "sig" || s == "signature" then Some("/Sig")
    else None
  }

  /** The `controlType` synonym table, applied to the normalised value. It has no entry that
      yields /Sig. */
  function ControlTypeSynonym(c: string): (r: Option<string>)
    ensures r.Some? ==> IsFieldTypeName(r.value) && r.value != "/Sig"
  {
    if c == "text" || c == "textarea" then Some("/Tx")
    else if c == "checkbox" then Some("/Btn")
    else if c == "select" || c == "choice" then Some("/Ch")
    else None
  }

  /** `patch.get("fieldType") or patch.get("field_type")`. */
  function FieldTypeValue(patch: Object): Value {
    PyOr(PyGet(patch, "fieldType"), PyGet(patch, "field_type"))
  }

  /** `patch.get("controlType") or patch.get("control_type")`. */
  function ControlTypeValue(patch: Object): Value {
    PyOr(PyGet(patch, "controlType"), PyGet(patch, "control_type"))
  }

  /** What the `fieldType` value alone decides: a synonym, or one of the four /FT names
      written verbatim; None when it is absent or unrecognised. */
  function FromFieldType(ft: Value, py: PyRuntime): (r: Option<string>)
    ensures r.Some? ==> IsFieldTypeName(r.value)
    ensures ft.Null? ==> r.None?
  {
    if ft.Null? then None
    else match FieldTypeSynonym(Normalised(ft, py))
      case Some(t) => Some(t)
      case None => if ft.Str? && IsFieldTypeName(ft.s) then Some(ft.s) else None
  }

  /** What the `controlType` value alone decides. */
  function FromControlType(control: Value, py: PyRuntime): (r: Option<string>)
    ensures r.Some? ==> IsFieldTypeName(r.value) && r.value != "/Sig"
  {
    if control.Null? then None else ControlTypeSynonym(Normalised(control, py))
  }

  /** `_patch_field_type`: a recognised `fieldType` wins; otherwise the `controlType` table
      decides; None when neither is recognised. */
  function PatchFieldType(patch: Object, py: PyRuntime): (r: Option<string>)
    ensures r.Some? ==> IsFieldTypeName(r.value)
    ensures FromFieldType(FieldTypeValue(patch), py).Some? ==> r == FromFieldType(FieldTypeValue(patch), py)
    ensures FromFieldType(FieldTypeValue(patch), py).None? ==> r == FromControlType(ControlTypeValue(patch), py)
  {
    match FromFieldType(FieldTypeValue(patch), py)
    case Some(t) => Some(t)
    case None => FromControlType(ControlTypeValue(patch), py)
  }

  /** A /Sig type can only come from `fieldType`: without one, the result is never /Sig. */
  lemma SigOnlyFromFieldType(patch: Object, py: PyRuntime)
    requires FromFieldType(FieldTypeValue(patch), py).None?
    ensures PatchFieldType(patch, py) != Some("/Sig")
  {
  }

  /** The family names `_pdf_font_name` recognises, after stripping and lower-casing. */
  predicate KnownFamily(name: string) {
    name == "times" || name == "times new roman" || name == "times-new-roman" || name == "serif"
    || name == "times bold" || name == "times-new-roman bold"
    || name == "courier" || name == "courier new" || name == "monospace"
    || name == "courier bold" || name == "courier new bold"
    || name == "helvetica" || name == "arial" || name == "sans-serif" || name == "sans serif"
    || name == "helvetica bold" || name == "arial bold"
  }

  /** The standard-14 base fonts `_pdf_font_name` can return. */
  predicate IsBaseFont(f: string) {
    f == "Times-Roman" || f == "Times-Bold" || f == "Courier" || f == "Courier-Bold"
    || f == "Helvetica" || f == "Helvetica-Bold"
  }

  function FontForName(name: string): string {
    if name == "times" || name == "times new roman" || name == "times-new-roman" || name == "serif" then "Times-Roman"
    else if name == "times bold" || name == "times-new-roman bold" then "Times-Bold"
    else if name == "courier" || name == "courier new" || name == "monospace" then "Courier"
    else if name == "courier bold" || name == "courier new bold" then "Courier-Bold"
    else if name == "helvetica" || name == "arial" || name == "sans-serif" || name == "sans serif" then "Helvetica"
    else if name == "helvetica bold" || name == "arial bold" then "Helvetica-Bold"
    else "Helvetica"
  }

  /** `_pdf_font_name`: a standard base font for every input; Helvetica for a missing,
      non-string, empty or unknown family. */
  function PdfFontName(family: Value): (r: string)
    ensures IsBaseFont(r)
    ensures !family.Str? || family.s == "" ==> r == "Helvetica"
    ensures family.Str? && !KnownFamily(PyLower(PyStrip(family.s))) ==> r == "Helvetica"
  {
    if !family.Str? || family.s == "" then "Helvetica" else FontForName(PyLower(PyStrip(family.s)))
  }

  /** `max(1, min(999, size))`. */
  function ClampFontSize(size: real): (r: real)
    ensures 1.0 <= r <= 999.0
    ensures 1.0 <= size <= 999.0 ==> r == size
    ensures size < 1.0 ==> r == 1.0
    ensures size > 999.0 ==> r == 999.0
  {
    if size > 999.0 then 999.0 else if size < 1.0 then 1.0 else size
  }

  /** `_build_da_string`: black text in the mapped font at the clamped size, rendered with one
      decimal. */
  function BuildDaString(size: real, family: Value, py: PyRuntime): string {
    "0 0 0 rg /" + PdfFontName(family) + " " + py.fixed1(ClampFontSize(size)) + " Tf"
  }
}
