/** The part of a PDF that the interactive-forms scripts read and write (section 12.7 of
    ISO 32000-1): indirect dictionaries, each page's /Annots array and the catalog's /AcroForm. */
module Pdf {
  import opened Wrappers

  /** An indirect object number. */
  type Ref = nat

  /** Which program a pass function states: the scripts as they are written, or the corrected
      program a finding argues for (README, "Findings"). */
  datatype Version = AsWritten | Intended

  /** PDF objects as the scripts receive them from the PDF library. Text and byte strings are
      both `PStr` (byte strings already decoded); a name object is `PName` holding the library's
      string form of the name. */
  datatype PdfObj =
    | PNull
    | PBool(b: bool)
    | PInt(i: int)
    | PReal(r: real)
    | PStr(s: string)
    | PName(n: string)
    | PArray(items: seq<PdfObj>)
    | PDict(d: map<string, PdfObj>)
    | PRef(ref: Ref)

  type Dict = map<string, PdfObj>

  /** The interactive form dictionary: its /Fields array and its /NeedAppearances flag. A missing
      /Fields array is the empty one (both scripts read it with `or []`). */
  datatype AcroForm = AcroForm(fields: seq<Ref>, needAppearances: bool)

  /** A document: its indirect dictionaries, the number of indirect objects the writer has
      allocated, each page's /Annots (None when the page has none) and the /AcroForm entry. */
  datatype Doc = Doc(
    objects: map<Ref, Dict>,
    objectCount: nat,
    pages: seq<Option<seq<Ref>>>,
    acroForm: Option<AcroForm>)

  /** ISO 32000-1 section 12.7.3.1 requires /Parent to be an indirect reference to the parent
      field's dictionary. */
  predicate ParentLinkOk(d: Dict) {
    "/Parent" in d ==> d["/Parent"].PRef?
  }

  /** Every indirect dictionary has a well-formed parent link. */
  predicate LinksOk(objects: map<Ref, Dict>) {
    forall r :: r in objects ==> ParentLinkOk(objects[r])
  }

  /** Object tables whose parent links are all references. */
  type LinkedObjects = m: map<Ref, Dict> | LinksOk(m) witness map[]

  /** Every dictionary's parent link is well formed, and all object numbers are allocated. */
  predicate WellFormed(doc: Doc) {
    LinksOk(doc.objects)
    && (forall r :: r in doc.objects ==> 1 <= r <= doc.objectCount)
  }

  /** `obj.get(key)`: None when the key is absent. */
  function Get(d: Dict, key: string): (r: Option<PdfObj>)
    ensures r.Some? <==> key in d
  {
    if key in d then Some(d[key]) else None
  }

  /** Dereferences an indirect reference; None for a reference to a missing object. A direct
      object is returned as it is. */
  function Resolve(o: PdfObj, objects: map<Ref, Dict>): (r: Option<PdfObj>)
    ensures !o.PRef? ==> r == Some(o)
    ensures o.PRef? ==> (r.Some? <==> o.ref in objects)
    ensures o.PRef? && r.Some? ==> r.value == PDict(objects[o.ref])
  {
    match o
    case PRef(n) => if n in objects then Some(PDict(objects[n])) else None
    case _ => Some(o)
  }

  /** The resolved parent dictionary of `d`, if it has one that resolves. */
  function ParentOf(d: Dict, objects: map<Ref, Dict>): (r: Option<Dict>)
    requires ParentLinkOk(d)
    ensures r.Some? <==> "/Parent" in d && d["/Parent"].ref in objects
    ensures r.Some? ==> r.value == objects[d["/Parent"].ref]
  {
    if "/Parent" in d && d["/Parent"].ref in objects then Some(objects[d["/Parent"].ref]) else None
  }

  /** `_get_inheritable`: the key's resolved value on `d` when present, otherwise the parent's
      own (unresolved) value; the parent's parent is never consulted. */
  function GetInheritable(d: Dict, key: string, objects: map<Ref, Dict>): (r: Option<PdfObj>)
    requires ParentLinkOk(d)
    ensures key in d ==> r == Resolve(d[key], objects)
    ensures key !in d && ParentOf(d, objects).None? ==> r.None?
    ensures key !in d && ParentOf(d, objects).Some? ==> r == Get(ParentOf(d, objects).value, key)
  {
    if key in d then Resolve(d[key], objects)
    else match ParentOf(d, objects)
      case None => None
      case Some(p) => Get(p, key)
  }

  /** Inheritance reaches one level only: a key missing from the dictionary and from its parent
      is missing, whatever the parent's own ancestors hold. */
  lemma InheritanceIsOneLevel(d: Dict, key: string, objects: map<Ref, Dict>)
    requires ParentLinkOk(d)
    requires key !in d
    requires ParentOf(d, objects).Some? ==> key !in ParentOf(d, objects).value
    ensures GetInheritable(d, key, objects).None?
  {
  }

  /** Python truth value of a PDF object (`x or y` on values the library returns). Numbers,
      strings, names, arrays and dictionaries are the library's subclasses of the Python built-in
      types and test as those do; its null, boolean and reference objects define no truth value
      of their own and are therefore always true. */
  predicate PdfTruthy(o: PdfObj) {
    match o
    case PNull => true
    case PBool(_) => true
    case PInt(i) => i != 0
    case PReal(r) => r != 0.0
    case PStr(s) => s != []
    case PName(n) => n != []
    case PArray(xs) => xs != []
    case PDict(m) => m != map[]
    case PRef(_) => true
  }
}
