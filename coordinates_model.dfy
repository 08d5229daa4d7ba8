/** The form model of the signature-coordinates widget (src/Model/SignatureCoordinatesModel.php):
    the PDF URL, unit, origin, the list of signature boxes, the consent flag and audit metadata,
    with setters, array export and import. The box model (SignatureBoxModel) is a type parameter
    with its own `toArray` and `fromArray`, which are not part of this model. */
module SignatureCoordinatesModel {
  import opened Wrappers
  import opened Values

  const UnitMm := "mm"
  const OriginBottomLeft := "bottom_left"

  /** The state of one model, field by field. */
  datatype Coordinates<Box> = Coordinates(
    pdfUrl: Option<string>, unit: string, origin: string, signatureBoxes: seq<Box>,
    signingConsent: bool, auditMetadata: Object)

  /** The state of `new SignatureCoordinatesModel()`. */
  function Defaults<Box>(): Coordinates<Box> {
    Coordinates(None, UnitMm, OriginBottomLeft, [], false, map[])
  }

  class SignatureCoordinates<Box> {
    var pdfUrl: Option<string>
    var unit: string
    var origin: string
    var signatureBoxes: seq<Box>
    var signingConsent: bool
    var auditMetadata: Object

    function Contents(): Coordinates<Box>
      reads this
    {
      Coordinates(pdfUrl, unit, origin, signatureBoxes, signingConsent, auditMetadata)
    }

    constructor ()
      ensures Contents() == Defaults()
    {
      pdfUrl := None;
      unit := UnitMm;
      origin := OriginBottomLeft;
      signatureBoxes := [];
      signingConsent := false;
      auditMetadata := map[];
    }

    method SetPdfUrl(url: Option<string>)
      modifies this
      ensures Contents() == old(Contents()).(pdfUrl := url)
    {
      pdfUrl := url;
    }

    method SetUnit(u: string)
      modifies this
      ensures Contents() == old(Contents()).(unit := u)
    {
      unit := u;
    }

    method SetOrigin(o: string)
      modifies this
      ensures Contents() == old(Contents()).(origin := o)
    {
      origin := o;
    }

    /** Replaces the whole list. */
    method SetSignatureBoxes(boxes: seq<Box>)
      modifies this
      ensures Contents() == old(Contents()).(signatureBoxes := boxes)
    {
      signatureBoxes := boxes;
    }

    /** Appends one box at the end; nothing else changes. */
    method AddSignatureBox(box: Box)
      modifies this
      ensures Contents() == old(Contents()).(signatureBoxes := old(signatureBoxes) + [box])
    {
      signatureBoxes := signatureBoxes + [box];
    }

    method SetSigningConsent(consent: bool)
      modifies this
      ensures Contents() == old(Contents()).(signingConsent := consent)
    {
      signingConsent := consent;
    }

    method SetAuditMetadata(audit: Object)
      modifies this
      ensures Contents() == old(Contents()).(auditMetadata := audit)
    {
      auditMetadata := audit;
    }

    /** `toArray`. */
    method ToArray(boxToArray: Box -> Value) returns (out: Object)
      ensures out == Exported(Contents(), boxToArray)
    {
      var boxes := ExportedBoxes(signatureBoxes, boxToArray);
      out := map["pdf_url" := (if pdfUrl.Some? then Str(pdfUrl.value) else Null), "unit" := Str(unit),
                 "origin" := Str(origin), "signature_boxes" := List(boxes)];
      if signingConsent {
        out := out["signing_consent" := Bool(true)];
      }
      if auditMetadata != map[] {
        out := out["audit_metadata" := Dict(auditMetadata)];
      }
    }
  }

  /** The exported boxes, each through the box model's `toArray`. */
  function ExportedBoxes<Box>(boxes: seq<Box>, boxToArray: Box -> Value): seq<Value> {
    seq(|boxes|, k requires 0 <= k < |boxes| => boxToArray(boxes[k]))
  }

  /** The array `toArray` returns: the four fixed keys, `signing_consent` only when it is true
      and `audit_metadata` only when it is not empty. */
  function Exported<Box>(c: Coordinates<Box>, boxToArray: Box -> Value): (out: Object)
    ensures out.Keys == {"pdf_url", "unit", "origin", "signature_boxes"}
                        + (if c.signingConsent then {"signing_consent"} else {})
                        + (if c.auditMetadata != map[] then {"audit_metadata"} else {})
    ensures "signing_consent" in out ==> out["signing_consent"] == Bool(true)
  {
    var base := map["pdf_url" := (if c.pdfUrl.Some? then Str(c.pdfUrl.value) else Null), "unit" := Str(c.unit),
                     "origin" := Str(c.origin), "signature_boxes" := List(ExportedBoxes(c.signatureBoxes, boxToArray))];
    var withConsent := if c.signingConsent then base["signing_consent" := Bool(true)] else base;
    if c.auditMetadata != map[] then withConsent["audit_metadata" := Dict(c.auditMetadata)] else withConsent
  }

  // ---------------------------------------------------------------- fromArray

  /** The boxes the `foreach` adds from the first `n` entries: the array entries, each through the
      box model's `fromArray`. */
  function BoxesOf<Box>(entries: seq<Value>, n: nat, boxFromArray: Object -> Box): seq<Box>
    requires n <= |entries|
  {
    if n == 0 then []
    else BoxesOf(entries, n - 1, boxFromArray) + (if PhpIsArray(entries[n - 1]) then [boxFromArray(PhpEntries(entries[n - 1]))] else [])
  }

  /** The model `fromArray` builds, or the TypeError `setPdfUrl` raises under strict types when
      `pdf_url` is neither a string nor null. */
  function Imported<Box>(data: Object, boxFromArray: Object -> Box, php: PhpRuntime): Result<Coordinates<Box>> {
    var url := PhpCoalesce(data, "pdf_url", Null);
    if !(url.Str? || url.Null?) then Failure("TypeError: pdf_url must be of type ?string")
    else
      var boxes := PhpValues(PhpCoalesce(data, "signature_boxes", List([])));
      Success(Coordinates(
        if url.Str? then Some(url.s) else None,
        PhpToString(PhpCoalesce(data, "unit", Str(UnitMm)), php),
        PhpToString(PhpCoalesce(data, "origin", Str(OriginBottomLeft)), php),
        BoxesOf(boxes, |boxes|, boxFromArray),
        "signing_consent" in data && !PhpEmpty(data["signing_consent"]),
        if PhpIsset(data, "audit_metadata") && PhpIsArray(data["audit_metadata"]) then PhpEntries(data["audit_metadata"]) else map[]))
  }

  /** `fromArray`: setter calls on a new model, and the box loop. */
  method FromArray<Box>(data: Object, boxFromArray: Object -> Box, php: PhpRuntime)
      returns (r: Result<SignatureCoordinates<Box>>)
    ensures Imported(data, boxFromArray, php).Failure? ==> r == Failure(Imported(data, boxFromArray, php).error)
    ensures Imported(data, boxFromArray, php).Success? ==>
      r.Success? && fresh(r.value) && r.value.Contents() == Imported(data, boxFromArray, php).value
  {
    var url := PhpCoalesce(data, "pdf_url", Null);
    if !(url.Str? || url.Null?) {
      return Failure("TypeError: pdf_url must be of type ?string");
    }
    var model := new SignatureCoordinates<Box>();
    model.SetPdfUrl(if url.Str? then Some(url.s) else None);
    model.SetUnit(PhpToString(PhpCoalesce(data, "unit", Str(UnitMm)), php));
    model.SetOrigin(PhpToString(PhpCoalesce(data, "origin", Str(OriginBottomLeft)), php));
    var boxes := PhpValues(PhpCoalesce(data, "signature_boxes", List([])));
    for n := 0 to |boxes|
      invariant model.signatureBoxes == BoxesOf(boxes, n, boxFromArray)
      invariant model.Contents().(signatureBoxes := []) == Imported(data, boxFromArray, php).value.(
                  signatureBoxes := [], signingConsent := false, auditMetadata := map[])
    {
      if PhpIsArray(boxes[n]) {
        model.AddSignatureBox(boxFromArray(PhpEntries(boxes[n])));
      }
    }
    model.SetSigningConsent("signing_consent" in data && !PhpEmpty(data["signing_consent"]));
    if PhpIsset(data, "audit_metadata") && PhpIsArray(data["audit_metadata"]) {
      model.SetAuditMetadata(PhpEntries(data["audit_metadata"]));
    }
    r := Success(model);
  }

  // ---------------------------------------------------------------- properties

  /** A missing unit or origin takes the default, a missing or null URL is none, and consent is
      false unless `signing_consent` is present and not empty. */
  lemma ImportDefaults<Box>(data: Object, boxFromArray: Object -> Box, php: PhpRuntime)
    requires "pdf_url" !in data && "unit" !in data && "origin" !in data && "signing_consent" !in data
    ensures Imported(data, boxFromArray, php).Success?
    ensures var c := Imported(data, boxFromArray, php).value;
      c.pdfUrl.None? && c.unit == UnitMm && c.origin == OriginBottomLeft && !c.signingConsent
  {
  }

  /** Non-array entries of `signature_boxes` are skipped: the boxes are those of the array entries,
      in order. */
  lemma {:induction false} BoxesOfArrays<Box>(entries: seq<Value>, n: nat, boxFromArray: Object -> Box)
    requires n <= |entries|
    ensures |BoxesOf(entries, n, boxFromArray)| <= n
    ensures (forall k :: 0 <= k < n ==> PhpIsArray(entries[k])) ==>
      BoxesOf(entries, n, boxFromArray) == seq(n, k requires 0 <= k < n => boxFromArray(PhpEntries(entries[k])))
  {
    if n > 0 {
      BoxesOfArrays(entries, n - 1, boxFromArray);
    }
  }

  /** What `toArray` writes under each key `fromArray` reads. */
  lemma ExportedEntries<Box>(c: Coordinates<Box>, boxToArray: Box -> Value)
    ensures var d := Exported(c, boxToArray);
      && PhpCoalesce(d, "pdf_url", Null) == (if c.pdfUrl.Some? then Str(c.pdfUrl.value) else Null)
      && d["unit"] == Str(c.unit) && d["origin"] == Str(c.origin)
      && d["signature_boxes"] == List(ExportedBoxes(c.signatureBoxes, boxToArray))
      && ("signing_consent" in d <==> c.signingConsent)
      && ("signing_consent" in d ==> d["signing_consent"] == Bool(true))
      && (PhpIsset(d, "audit_metadata") <==> c.auditMetadata != map[])
      && (PhpIsset(d, "audit_metadata") ==> d["audit_metadata"] == Dict(c.auditMetadata))
  {
  }

  /** The boxes `fromArray` reads back from the exported `signature_boxes`. */
  lemma ImportedBoxesOfExported<Box>(c: Coordinates<Box>, boxToArray: Box -> Value, boxFromArray: Object -> Box)
    requires forall b :: PhpIsArray(boxToArray(b)) && boxFromArray(PhpEntries(boxToArray(b))) == b
    ensures var boxes := PhpValues(PhpCoalesce(Exported(c, boxToArray), "signature_boxes", List([])));
      BoxesOf(boxes, |boxes|, boxFromArray) == c.signatureBoxes
  {
    var entries := ExportedBoxes(c.signatureBoxes, boxToArray);
    ExportedEntries(c, boxToArray);
    assert PhpValues(PhpCoalesce(Exported(c, boxToArray), "signature_boxes", List([]))) == entries;
    BoxesOfArrays(entries, |entries|, boxFromArray);
  }

  /** Importing an exported model gives it back, when the box model's `fromArray` undoes its
      `toArray` and `toArray` writes an array. */
  lemma ImportOfExported<Box>(c: Coordinates<Box>, boxToArray: Box -> Value, boxFromArray: Object -> Box, php: PhpRuntime)
    requires forall b :: PhpIsArray(boxToArray(b)) && boxFromArray(PhpEntries(boxToArray(b))) == b
    ensures Imported(Exported(c, boxToArray), boxFromArray, php) == Success(c)
  {
    var d := Exported(c, boxToArray);
    ExportedEntries(c, boxToArray);
    ImportedBoxesOfExported(c, boxToArray, boxFromArray);
    var r := Imported(d, boxFromArray, php);
    assert r.Success?;
    assert r.value.pdfUrl == c.pdfUrl;
    assert r.value.unit == c.unit && r.value.origin == c.origin;
    assert r.value.signatureBoxes == c.signatureBoxes;
    assert r.value.signingConsent == c.signingConsent;
    assert r.value.auditMetadata == c.auditMetadata;
  }
}
