/** `extract_fields`: the field descriptors of a document's widget annotations, page by page and
    in /Annots order, with a per-pass identifier for each. */
module AcroFormExtract {
  import opened Wrappers
  import opened Text
  import opened Values
  import opened Pdf
  import opened DaFontSize

  /** What the model does not write out: `str()` of a PDF object that is neither a string nor a
      name, and Python `float()` of a string (None where it raises ValueError). */
  datatype ExtractRuntime = ExtractRuntime(repr: PdfObj -> string, parseFloat: string -> Option<real>)

  datatype Rect = Rect(llx: real, lly: real, urx: real, ury: real)

  /** Everything a descriptor reports except its identifier. */
  datatype FieldInfo = FieldInfo(
    rect: Rect,
    width: real,
    height: real,
    fieldType: string,
    value: string,
    page: nat,
    fieldName: string,
    fontSize: Option<real>,
    maxLen: Option<int>,
    flags: Option<int>)

  datatype FieldDescriptor = FieldDescriptor(id: string, info: FieldInfo)

  /** One entry of a page's /Annots array: its 1-based page, its 0-based position, its object. */
  datatype Slot = Slot(page: nat, idx: nat, ref: Ref)

  // ---------------------------------------------------------------- reading PDF values

  function RemoveChar(s: string, c: char): (r: string)
    ensures c !in r
  {
    if s == [] then [] else (if s[0] == c then [] else [s[0]]) + RemoveChar(s[1..], c)
  }

  /** A name's string form without its leading `/`. */
  function DropSlash(n: string): (r: string)
    ensures StartsWith(n, "/") ==> n == "/" + r
    ensures !StartsWith(n, "/") ==> r == n
  {
    if StartsWith(n, "/") then n[1..] else n
  }

  /** `_str_val`: "" for nothing (or a dangling reference), the text of a string, and otherwise
      `str()` of the object with every `/` removed and white space stripped. A name object is a
      Python `str` holding its leading `/`, so as written it is returned with the slash; the
      corrected reading drops the slash, as the function's own documentation says it does. */
  function StrVal(v: Version, o: Option<PdfObj>, objects: map<Ref, Dict>, rt: ExtractRuntime): string {
    match o
    case None => ""
    case Some(x) =>
      match Resolve(x, objects)
      case None => ""
      case Some(PStr(s)) => s
      case Some(PName(n)) => if v == AsWritten then n else DropSlash(n)
      case Some(y) => PyStrip(RemoveChar(rt.repr(y), '/'))
  }

  /** Python `float()` of an array entry: numbers convert, strings and names are parsed, and every
      other object (references included) raises TypeError. */
  function PdfFloat(o: PdfObj, rt: ExtractRuntime): Option<real> {
    match o
    case PInt(i) => Some(i as real)
    case PReal(r) => Some(r)
    case PStr(s) => rt.parseFloat(s)
    case PName(n) => rt.parseFloat(n)
    case _ => None
  }

  /** Python `int()` of a PDF object: integers as they are, reals truncated toward zero, strings
      and names parsed as Python parses them; every other object raises TypeError. */
  function PdfInt(o: PdfObj): (r: Option<int>)
    ensures o.PInt? ==> r == Some(o.i)
    ensures o.PArray? || o.PDict? || o.PRef? || o.PNull? || o.PBool? ==> r.None?
  {
    match o
    case PInt(i) => Some(i)
    case PReal(r) => Some(Truncate(r))
    case PStr(s) => PyInt(s)
    case PName(n) => PyInt(n)
    case _ => None
  }

  function FourCoords(a: Option<real>, b: Option<real>, c: Option<real>, d: Option<real>): Option<Rect> {
    if a.Some? && b.Some? && c.Some? && d.Some? then Some(Rect(a.value, b.value, c.value, d.value))
    else None
  }

  /** The rectangle of a resolved /Rect value. None means the annotation is skipped: no value,
      one without indexing, fewer than 4 entries, or an entry `float()` rejects. A string or a
      name is indexed character by character. A dictionary with 4 or more entries is indexed by
      the integer 0, which is never one of its keys: the KeyError is not caught and ends the pass. */
  function RectOf(rect: Option<PdfObj>, rt: ExtractRuntime): (r: Result<Option<Rect>>)
    ensures r.Failure? <==> rect.Some? && rect.value.PDict? && |rect.value.d| >= 4
    ensures rect.Some? && rect.value.PArray? && |rect.value.items| < 4 ==> r == Success(None)
  {
    match rect
    case None => Success(None)
    case Some(PArray(xs)) =>
      if |xs| < 4 then Success(None)
      else Success(FourCoords(PdfFloat(xs[0], rt), PdfFloat(xs[1], rt), PdfFloat(xs[2], rt), PdfFloat(xs[3], rt)))
    case Some(PStr(s)) => Success(CharCoords(s, rt))
    case Some(PName(s)) => Success(CharCoords(s, rt))
    case Some(PDict(d)) => if |d| < 4 then Success(None) else Failure("KeyError: 0")
    case Some(_) => Success(None)
  }

  function CharCoords(s: string, rt: ExtractRuntime): Option<Rect> {
    if |s| < 4 then None
    else FourCoords(rt.parseFloat([s[0]]), rt.parseFloat([s[1]]), rt.parseFloat([s[2]]), rt.parseFloat([s[3]]))
  }

  function Max0(x: real): (r: real)
    ensures r >= 0.0 && r >= x
    ensures x >= 0.0 ==> r == x
  {
    if x > 0.0 then x else 0.0
  }

  /** The /DA text: the widget's own /DA when it is truthy, otherwise the inherited one. */
  function DaText(v: Version, annot: Dict, fieldDict: Dict, objects: map<Ref, Dict>, rt: ExtractRuntime): string
    requires ParentLinkOk(fieldDict)
  {
    var own := Get(annot, "/DA");
    var da := if own.Some? && PdfTruthy(own.value) then own else GetInheritable(fieldDict, "/DA", objects);
    var resolved := if da.Some? then Resolve(da.value, objects) else None;
    StrVal(v, resolved, objects, rt)
  }

  function IntOf(o: Option<PdfObj>): Option<int> {
    if o.Some? then PdfInt(o.value) else None
  }

  /** The field's own dictionary: the resolved parent when there is one, else the widget. */
  function FieldDict(annot: Dict, objects: map<Ref, Dict>): (r: Dict)
    requires ParentLinkOk(annot)
    requires LinksOk(objects)
    ensures ParentLinkOk(r)
    ensures ParentOf(annot, objects).Some? ==> r == ParentOf(annot, objects).value
    ensures ParentOf(annot, objects).None? ==> r == annot
  {
    match ParentOf(annot, objects)
    case Some(p) => p
    case None => annot
  }

  /** The descriptor of a widget with a usable rectangle, the identifier aside. */
  function Info(v: Version, annot: Dict, rc: Rect, page: nat, objects: map<Ref, Dict>, rt: ExtractRuntime): (r: FieldInfo)
    requires ParentLinkOk(annot)
    requires LinksOk(objects)
    ensures r.rect == rc && r.page == page
    ensures r.width == Max0(rc.urx - rc.llx) && r.height == Max0(rc.ury - rc.lly)
    ensures r.width >= 0.0 && r.height >= 0.0
    ensures r.fieldType != []
  {
    var fd := FieldDict(annot, objects);
    var ft := StrVal(v, GetInheritable(fd, "/FT", objects), objects, rt);
    FieldInfo(
      rect := rc,
      width := Max0(rc.urx - rc.llx),
      height := Max0(rc.ury - rc.lly),
      fieldType := if ft == [] then "Tx" else ft,
      value := StrVal(v, GetInheritable(fd, "/V", objects), objects, rt),
      page := page,
      fieldName := StrVal(v, GetInheritable(fd, "/T", objects), objects, rt),
      fontSize := ParseFontSizeFromDa(Str(DaText(v, annot, fd, objects, rt))),
      maxLen := IntOf(GetInheritable(fd, "/MaxLen", objects)),
      flags := IntOf(GetInheritable(fd, "/F", objects)))
  }

  function SubtypeOf(annot: Dict, objects: map<Ref, Dict>): Option<PdfObj> {
    if "/Subtype" in annot then Resolve(annot["/Subtype"], objects) else None
  }

  function RectValueOf(annot: Dict, objects: map<Ref, Dict>): Option<PdfObj> {
    if "/Rect" in annot then Resolve(annot["/Rect"], objects) else None
  }

  /** One /Annots entry: None when it is skipped (a dangling reference, no /Subtype, a subtype
      other than `Widget`, no usable rectangle), a failure when its /Rect raises. */
  function Describe(v: Version, slot: Slot, objects: map<Ref, Dict>, rt: ExtractRuntime): (r: Result<Option<FieldInfo>>)
    requires LinksOk(objects)
  {
    if slot.ref !in objects then Success(None)
    else
      var annot := objects[slot.ref];
      var subtype := SubtypeOf(annot, objects);
      if subtype.None? || StrVal(v, subtype, objects, rt) != "Widget" then Success(None)
      else match RectOf(RectValueOf(annot, objects), rt)
        case Failure(e) => Failure(e)
        case Success(None) => Success(None)
        case Success(Some(rc)) => Success(Some(Info(v, annot, rc, slot.page, objects, rt)))
  }

  /** What one entry's description says: a dangling reference is skipped; a failure comes only
      from a raising /Rect; a descriptor comes only from a `Widget` with a usable rectangle and
      reports the entry's page. */
  lemma DescribeFacts(v: Version, slot: Slot, objects: map<Ref, Dict>, rt: ExtractRuntime)
    requires LinksOk(objects)
    ensures slot.ref !in objects ==> Describe(v, slot, objects, rt) == Success(None)
    ensures Describe(v, slot, objects, rt).Failure? ==>
      slot.ref in objects && RectOf(RectValueOf(objects[slot.ref], objects), rt).Failure?
    ensures Describe(v, slot, objects, rt).Success? && Describe(v, slot, objects, rt).value.Some? ==>
      var info := Describe(v, slot, objects, rt).value.value;
      && slot.ref in objects
      && SubtypeOf(objects[slot.ref], objects).Some?
      && StrVal(v, SubtypeOf(objects[slot.ref], objects), objects, rt) == "Widget"
      && RectOf(RectValueOf(objects[slot.ref], objects), rt) == Success(Some(info.rect))
      && info == Info(v, objects[slot.ref], info.rect, slot.page, objects, rt)
      && info.page == slot.page && info.width >= 0.0 && info.height >= 0.0
  {
  }

  // ---------------------------------------------------------------- identifiers

  /** `p{page}-{idx}`. */
  function PositionalId(page: nat, idx: nat): string {
    "p" + NatToDecimal(page) + "-" + NatToDecimal(idx)
  }

  /** `@{page}-{idx}`. */
  function Suffix(page: nat, idx: nat): (r: string)
    ensures r != [] && r[0] == '@'
  {
    "@" + NatToDecimal(page) + "-" + NatToDecimal(idx)
  }

  /** The identifier before de-duplication: the stripped field name, else the position. */
  function BaseId(fieldName: string, page: nat, idx: nat): (r: string)
    ensures r != []
    ensures PyStrip(fieldName) != [] ==> r == PyStrip(fieldName)
    ensures PyStrip(fieldName) == [] ==> r == PositionalId(page, idx)
  {
    var t := PyStrip(fieldName);
    if t != [] then t else PositionalId(page, idx)
  }

  /** The de-duplication step as written: the suffix is appended once, whether or not the
      result is itself taken. */
  function AssignIdAsWritten(base: string, page: nat, idx: nat, seen: set<string>): string {
    if base in seen then base + Suffix(page, idx) else base
  }

  /** The de-duplication step with the evidently intended guarantee: the suffix is appended
      until the identifier is fresh. */
  function AssignId(base: string, page: nat, idx: nat, seen: set<string>): (r: string)
    ensures r !in seen
    ensures base !in seen ==> r == base
    ensures base in seen ==> StartsWith(r, base + Suffix(page, idx))
  {
    if base !in seen then base else Fresh(base + Suffix(page, idx), Suffix(page, idx), seen)
  }

  ghost function MaxLen(seen: set<string>): (r: nat)
    ensures forall x :: x in seen ==> |x| <= r
    decreases seen
  {
    if seen == {} then 0
    else
      var x :| x in seen;
      var m := MaxLen(seen - {x});
      assert forall y :: y in seen ==> y == x || y in seen - {x};
      if |x| > m then |x| else m
  }

  function Fresh(cand: string, suffix: string, seen: set<string>): (r: string)
    requires suffix != []
    ensures r !in seen
    ensures StartsWith(r, cand)
    decreases MaxLen(seen) + 1 - |cand|
  {
    if cand !in seen then cand
    else
      var r := Fresh(cand + suffix, suffix, seen);
      assert (cand + suffix)[..|cand|] == cand;
      assert r[..|cand|] == r[..|cand + suffix|][..|cand|];
      r
  }

  /** The identifiers emitted so far. */
  function Ids(out: seq<FieldDescriptor>): set<string> {
    if out == [] then {} else Ids(out[..|out| - 1]) + {out[|out| - 1].id}
  }

  lemma IdsAppend(out: seq<FieldDescriptor>, d: FieldDescriptor)
    ensures Ids(out + [d]) == Ids(out) + {d.id}
  {
    assert (out + [d])[..|out|] == out;
  }

  /** Exactly the identifiers of the descriptors are in `Ids`. */
  lemma {:induction false} InIds(out: seq<FieldDescriptor>)
    ensures forall k :: 0 <= k < |out| ==> out[k].id in Ids(out)
    ensures forall x :: x in Ids(out) ==> exists k :: 0 <= k < |out| && out[k].id == x
  {
    if out != [] {
      var init := out[..|out| - 1];
      InIds(init);
      forall k | 0 <= k < |init| ensures init[k] == out[k] { }
    }
  }

  // ---------------------------------------------------------------- the pass

  /** The entries of one page's /Annots array. */
  function PageSlots(page: nat, annots: Option<seq<Ref>>): (r: seq<Slot>)
    ensures annots.None? ==> r == []
    ensures annots.Some? ==> |r| == |annots.value|
    ensures annots.Some? ==> forall k :: 0 <= k < |r| ==> r[k] == Slot(page, k, annots.value[k])
  {
    match annots
    case None => []
    case Some(a) => seq(|a|, k requires 0 <= k < |a| => Slot(page, k, a[k]))
  }

  /** Every /Annots entry of the document, page by page (pages numbered from 1). */
  function DocSlots(pages: seq<Option<seq<Ref>>>): seq<Slot> {
    if pages == [] then []
    else DocSlots(pages[..|pages| - 1]) + PageSlots(|pages|, pages[|pages| - 1])
  }

  /** How each entry is read; the pass is stated for any such reading, and `EntryReader` is the
      one `extract_fields` uses. */
  type Reader = Slot -> Result<Option<FieldInfo>>

  /** How an identifier is chosen for a descriptor, given the identifiers emitted before it;
      `IdAssigner` is the one `extract_fields` uses. */
  type Assigner = (FieldInfo, Slot, set<string>) -> string

  /** An assigner whose identifiers are never already taken. */
  ghost predicate AlwaysFresh(assign: Assigner) {
    forall info, slot, seen :: assign(info, slot, seen) !in seen
  }

  /** The de-duplication step of either program. */
  function ChooseId(v: Version, base: string, page: nat, idx: nat, seen: set<string>): (r: string)
    ensures base !in seen ==> r == base
    ensures base in seen ==> StartsWith(r, base + Suffix(page, idx))
    ensures v == Intended ==> r !in seen
  {
    if v == AsWritten then AssignIdAsWritten(base, page, idx, seen) else AssignId(base, page, idx, seen)
  }

  /** The identifier of a descriptor: its base id, de-duplicated against those emitted before. */
  function IdAssigner(v: Version): (assign: Assigner)
    ensures forall info, slot, seen :: assign(info, slot, seen) == ChooseId(v, BaseId(info.fieldName, slot.page, slot.idx), slot.page, slot.idx, seen)
    ensures v == Intended ==> AlwaysFresh(assign)
  {
    (info: FieldInfo, slot: Slot, seen: set<string>) => ChooseId(v, BaseId(info.fieldName, slot.page, slot.idx), slot.page, slot.idx, seen)
  }

  function EntryReader(v: Version, objects: LinkedObjects, rt: ExtractRuntime): Reader {
    s => Describe(v, s, objects, rt)
  }

  /** One iteration of the loop over annotations. */
  function Step(state: Result<seq<FieldDescriptor>>, slot: Slot, read: Reader, assign: Assigner): Result<seq<FieldDescriptor>> {
    match state
    case Failure(e) => Failure(e)
    case Success(out) =>
      match read(slot)
      case Failure(e) => Failure(e)
      case Success(None) => Success(out)
      case Success(Some(info)) =>
        var id := assign(info, slot, Ids(out));
        Success(out + [FieldDescriptor(id, info)])
  }

  /** The loop over a sequence of entries, from a given state. */
  function FoldFrom(state: Result<seq<FieldDescriptor>>, slots: seq<Slot>, read: Reader, assign: Assigner): Result<seq<FieldDescriptor>> {
    if slots == [] then state
    else Step(FoldFrom(state, slots[..|slots| - 1], read, assign), slots[|slots| - 1], read, assign)
  }

  /** The loop over a sequence of entries, from the empty output. */
  function Fold(slots: seq<Slot>, read: Reader, assign: Assigner): Result<seq<FieldDescriptor>> {
    FoldFrom(Success([]), slots, read, assign)
  }

  /** The two nested loops, pages outside and each page's entries inside. */
  function FoldPages(pages: seq<Option<seq<Ref>>>, read: Reader, assign: Assigner): Result<seq<FieldDescriptor>> {
    if pages == [] then Success([])
    else FoldFrom(FoldPages(pages[..|pages| - 1], read, assign), PageSlots(|pages|, pages[|pages| - 1]), read, assign)
  }

  /** `extract_fields` on a document: one pass over every entry, page by page, as written or
      corrected. */
  function ExtractSpec(v: Version, doc: Doc, rt: ExtractRuntime): Result<seq<FieldDescriptor>>
    requires LinksOk(doc.objects)
  {
    Fold(DocSlots(doc.pages), EntryReader(v, doc.objects, rt), IdAssigner(v))
  }

  /** `extract_fields`, loop by loop, as written. */
  method ExtractFields(doc: Doc, rt: ExtractRuntime) returns (r: Result<seq<FieldDescriptor>>)
    requires LinksOk(doc.objects)
    ensures r == ExtractSpec(AsWritten, doc, rt)
  {
    var read := EntryReader(AsWritten, doc.objects, rt);
    var assign := IdAssigner(AsWritten);
    var out: seq<FieldDescriptor> := [];
    var seen: set<string> := {};
    var p := 0;
    while p < |doc.pages|
      invariant 0 <= p <= |doc.pages|
      invariant FoldPages(doc.pages[..p], read, assign) == Success(out)
      invariant seen == Ids(out)
    {
      FoldPagesStep(doc.pages, p, read, assign);
      var page;
      page, seen := ExtractPage(PageSlots(p + 1, doc.pages[p]), read, out, seen);
      if page.Failure? {
        FoldPagesFailure(doc.pages, p + 1, page.error, read, assign);
        FoldPagesIsFold(doc.pages, read, assign);
        return page;
      }
      out := page.value;
      p := p + 1;
    }
    assert doc.pages[..|doc.pages|] == doc.pages;
    FoldPagesIsFold(doc.pages, read, assign);
    r := Success(out);
  }

  /** The inner loop of `extract_fields`: one page's entries, read in order, each field
      appended with its id; the first entry that fails ends the loop with its error. */
  method ExtractPage(slots: seq<Slot>, read: Reader, start: seq<FieldDescriptor>, seen0: set<string>)
    returns (r: Result<seq<FieldDescriptor>>, seen: set<string>)
    requires seen0 == Ids(start)
    ensures r == FoldFrom(Success(start), slots, read, IdAssigner(AsWritten))
    ensures r.Success? ==> seen == Ids(r.value)
  {
    var assign := IdAssigner(AsWritten);
    var out := start;
    seen := seen0;
    var idx := 0;
    while idx < |slots|
      invariant 0 <= idx <= |slots|
      invariant FoldFrom(Success(start), slots[..idx], read, assign) == Success(out)
      invariant seen == Ids(out)
    {
      assert slots[..idx + 1][..idx] == slots[..idx];
      match read(slots[idx]) {
        case Failure(e) =>
          PageFailsAt(Success(start), slots, idx, read, assign);
          return Failure(e), seen;
        case Success(None) =>
        case Success(Some(info)) =>
          out, seen := EmitField(slots[idx], info, out, seen);
      }
      idx := idx + 1;
    }
    assert slots[..|slots|] == slots;
    r := Success(out);
  }

  /** The body of the inner loop for an entry that is a field: its id, de-duplicated as
      written, and the descriptor appended. */
  method EmitField(slot: Slot, info: FieldInfo, out: seq<FieldDescriptor>, seen: set<string>)
    returns (out': seq<FieldDescriptor>, seen': set<string>)
    requires seen == Ids(out)
    ensures out' == out + [FieldDescriptor(IdAssigner(AsWritten)(info, slot, seen), info)]
    ensures seen' == Ids(out')
  {
    var fid := BaseId(info.fieldName, slot.page, slot.idx);
    if fid in seen {
      fid := fid + Suffix(slot.page, slot.idx);
    }
    assert fid == IdAssigner(AsWritten)(info, slot, seen);
    IdsAppend(out, FieldDescriptor(fid, info));
    seen' := seen + {fid};
    out' := out + [FieldDescriptor(fid, info)];
  }

  // ---------------------------------------------------------------- lemmas

  /** Running the loop over two sequences one after the other runs it over their concatenation. */
  lemma {:induction false} FoldFromConcat(state: Result<seq<FieldDescriptor>>, xs: seq<Slot>, ys: seq<Slot>, read: Reader, assign: Assigner)
    ensures FoldFrom(state, xs + ys, read, assign) == FoldFrom(FoldFrom(state, xs, read, assign), ys, read, assign)
    decreases |ys|
  {
    if ys == [] {
      assert xs + ys == xs;
    } else {
      var init := ys[..|ys| - 1];
      FoldFromConcat(state, xs, init, read, assign);
      assert (xs + ys)[..|xs + ys| - 1] == xs + init;
      assert (xs + ys)[|xs + ys| - 1] == ys[|ys| - 1];
    }
  }

  /** A failure is final: no later entry is looked at. */
  lemma {:induction false} FailureIsFinal(e: string, ys: seq<Slot>, read: Reader, assign: Assigner)
    ensures FoldFrom(Failure(e), ys, read, assign) == Failure(e)
    decreases |ys|
  {
    if ys != [] {
      FailureIsFinal(e, ys[..|ys| - 1], read, assign);
    }
  }

  /** A failure on one page ends the pass over all later pages. */
  lemma {:induction false} FoldPagesFailure(pages: seq<Option<seq<Ref>>>, q: nat, e: string, read: Reader, assign: Assigner)
    requires q <= |pages|
    requires FoldPages(pages[..q], read, assign) == Failure(e)
    ensures FoldPages(pages, read, assign) == Failure(e)
    decreases |pages|
  {
    if q < |pages| {
      var init := pages[..|pages| - 1];
      assert init[..q] == pages[..q];
      FoldPagesFailure(init, q, e, read, assign);
      FailureIsFinal(e, PageSlots(|pages|, pages[|pages| - 1]), read, assign);
    } else {
      assert pages[..q] == pages;
    }
  }

  /** The nested loops compute the single pass over every entry. */
  lemma {:induction false} FoldPagesIsFold(pages: seq<Option<seq<Ref>>>, read: Reader, assign: Assigner)
    ensures FoldPages(pages, read, assign) == Fold(DocSlots(pages), read, assign)
    decreases |pages|
  {
    if pages != [] {
      var init := pages[..|pages| - 1];
      FoldPagesIsFold(init, read, assign);
      FoldFromConcat(Success([]), DocSlots(init), PageSlots(|pages|, pages[|pages| - 1]), read, assign);
    }
  }

  /** A failing entry makes the loop over a page fail with its error. */
  lemma PageFailsAt(start: Result<seq<FieldDescriptor>>, slots: seq<Slot>, idx: nat, read: Reader, assign: Assigner)
    requires idx < |slots|
    requires FoldFrom(start, slots[..idx], read, assign).Success?
    requires read(slots[idx]).Failure?
    ensures FoldFrom(start, slots, read, assign) == Failure(read(slots[idx]).error)
  {
    var e := read(slots[idx]).error;
    assert slots[..idx + 1][..idx] == slots[..idx];
    assert FoldFrom(start, slots[..idx + 1], read, assign) == Failure(e);
    assert slots == slots[..idx + 1] + slots[idx + 1..];
    FoldFromConcat(start, slots[..idx + 1], slots[idx + 1..], read, assign);
    FailureIsFinal(e, slots[idx + 1..], read, assign);
  }

  /** The outer loop's step: the pass over the first p + 1 pages continues the pass over the
      first p with page p + 1's entries. */
  lemma FoldPagesStep(pages: seq<Option<seq<Ref>>>, p: nat, read: Reader, assign: Assigner)
    requires p < |pages|
    ensures FoldPages(pages[..p + 1], read, assign)
         == FoldFrom(FoldPages(pages[..p], read, assign), PageSlots(p + 1, pages[p]), read, assign)
  {
    assert pages[..p + 1][..p] == pages[..p];
    assert pages[..p + 1][p] == pages[p];
  }

  /** A failing entry ends the whole pass with its error. */
  lemma PassFailsAt(pages: seq<Option<seq<Ref>>>, p: nat, idx: nat, read: Reader, assign: Assigner)
    requires p < |pages| && idx < |PageSlots(p + 1, pages[p])|
    requires FoldFrom(FoldPages(pages[..p], read, assign), PageSlots(p + 1, pages[p])[..idx], read, assign).Success?
    requires read(PageSlots(p + 1, pages[p])[idx]).Failure?
    ensures FoldPages(pages, read, assign) == Failure(read(PageSlots(p + 1, pages[p])[idx]).error)
  {
    var slots := PageSlots(p + 1, pages[p]);
    var e := read(slots[idx]).error;
    PageFailsAt(FoldPages(pages[..p], read, assign), slots, idx, read, assign);
    FoldPagesStep(pages, p, read, assign);
    FoldPagesFailure(pages, p + 1, e, read, assign);
  }

  /** The pass fails exactly when reading some entry fails; skipped entries never end it. */
  lemma {:induction false} FailsOnlyOnFailingEntry(slots: seq<Slot>, read: Reader, assign: Assigner)
    ensures Fold(slots, read, assign).Failure? <==> exists k :: 0 <= k < |slots| && read(slots[k]).Failure?
  {
    if slots != [] {
      var init := slots[..|slots| - 1];
      var last := slots[|slots| - 1];
      FailsOnlyOnFailingEntry(init, read, assign);
      assert Fold(slots, read, assign) == Step(Fold(init, read, assign), last, read, assign);
      if Fold(init, read, assign).Failure? {
        var k :| 0 <= k < |init| && read(init[k]).Failure?;
        assert slots[k] == init[k];
      } else if read(last).Failure? {
        assert read(slots[|slots| - 1]).Failure?;
      } else {
        assert Fold(slots, read, assign).Success?;
        forall k | 0 <= k < |slots| ensures !read(slots[k]).Failure? {
          if k < |init| { assert init[k] == slots[k]; }
        }
      }
    }
  }

  /** When `extract_fields` fails, the description of some entry failed. */
  lemma ExtractFailureHasFailingEntry(v: Version, doc: Doc, rt: ExtractRuntime)
    requires LinksOk(doc.objects)
    requires ExtractSpec(v, doc, rt).Failure?
    ensures exists k :: 0 <= k < |DocSlots(doc.pages)| && Describe(v, DocSlots(doc.pages)[k], doc.objects, rt).Failure?
  {
    var slots := DocSlots(doc.pages);
    var read := EntryReader(v, doc.objects, rt);
    FailsOnlyOnFailingEntry(slots, read, IdAssigner(v));
    var k :| 0 <= k < |slots| && read(slots[k]).Failure?;
    assert Describe(v, slots[k], doc.objects, rt).Failure?;
  }

  /** When the description of some entry fails, `extract_fields` fails. */
  lemma FailingEntryFailsExtract(v: Version, doc: Doc, rt: ExtractRuntime, k: nat)
    requires LinksOk(doc.objects)
    requires k < |DocSlots(doc.pages)| && Describe(v, DocSlots(doc.pages)[k], doc.objects, rt).Failure?
    ensures ExtractSpec(v, doc, rt).Failure?
  {
    var slots := DocSlots(doc.pages);
    var read := EntryReader(v, doc.objects, rt);
    assert read(slots[k]).Failure?;
    FailsOnlyOnFailingEntry(slots, read, IdAssigner(v));
  }

  /** `extract_fields` fails exactly when some entry's description fails. */
  lemma ExtractFailsOnFailingEntry(v: Version, doc: Doc, rt: ExtractRuntime)
    requires LinksOk(doc.objects)
    ensures ExtractSpec(v, doc, rt).Failure? <==>
      exists k :: 0 <= k < |DocSlots(doc.pages)| && Describe(v, DocSlots(doc.pages)[k], doc.objects, rt).Failure?
  {
    if ExtractSpec(v, doc, rt).Failure? {
      ExtractFailureHasFailingEntry(v, doc, rt);
    }
    if k :| 0 <= k < |DocSlots(doc.pages)| && Describe(v, DocSlots(doc.pages)[k], doc.objects, rt).Failure? {
      FailingEntryFailsExtract(v, doc, rt, k);
    }
  }

  /** An entry's description fails only when the entry's /Rect raises. */
  lemma EntryFailsOnlyOnRaisingRect(v: Version, doc: Doc, rt: ExtractRuntime)
    requires LinksOk(doc.objects)
    ensures forall k :: 0 <= k < |DocSlots(doc.pages)| && Describe(v, DocSlots(doc.pages)[k], doc.objects, rt).Failure? ==>
      var ref := DocSlots(doc.pages)[k].ref;
      ref in doc.objects && RectOf(RectValueOf(doc.objects[ref], doc.objects), rt).Failure?
  {
    var slots := DocSlots(doc.pages);
    forall k | 0 <= k < |slots|
      ensures Describe(v, slots[k], doc.objects, rt).Failure? ==>
        slots[k].ref in doc.objects && RectOf(RectValueOf(doc.objects[slots[k].ref], doc.objects), rt).Failure?
    {
      DescribeFacts(v, slots[k], doc.objects, rt);
    }
  }

  /** Identifiers are unique within one pass. */
  lemma {:induction false} IdsUnique(slots: seq<Slot>, read: Reader, assign: Assigner)
    requires AlwaysFresh(assign)
    requires Fold(slots, read, assign).Success?
    ensures var out := Fold(slots, read, assign).value;
      forall i, j :: 0 <= i < j < |out| ==> out[i].id != out[j].id
  {
    if slots != [] {
      var init := slots[..|slots| - 1];
      if Fold(init, read, assign).Success? {
        IdsUnique(init, read, assign);
        var prev := Fold(init, read, assign).value;
        InIds(prev);
        var out := Fold(slots, read, assign).value;
        if |out| > |prev| {
          assert out == prev + [out[|prev|]];
        }
      }
    }
  }

  /** Indices of the entries that produce a descriptor, in order. */
  function Kept(slots: seq<Slot>, read: Reader): (r: seq<nat>)
    ensures forall k :: 0 <= k < |r| ==> r[k] < |slots|
    ensures forall i, j :: 0 <= i < j < |r| ==> r[i] < r[j]
  {
    if slots == [] then []
    else
      var init := Kept(slots[..|slots| - 1], read);
      var d := read(slots[|slots| - 1]);
      if d.Success? && d.value.Some? then init + [|slots| - 1] else init
  }

  /** Descriptor k of `out` is the reading of the k-th kept entry of `slots`, and its identifier
      is the one chosen given the identifiers of the descriptors before it. */
  ghost predicate MatchesKept(slots: seq<Slot>, read: Reader, assign: Assigner, out: seq<FieldDescriptor>) {
    var kept := Kept(slots, read);
    && |out| == |kept|
    && forall k :: 0 <= k < |out| ==>
      && read(slots[kept[k]]) == Success(Some(out[k].info))
      && out[k].id == assign(out[k].info, slots[kept[k]], Ids(out[..k]))
  }

  /** One more entry keeps the output matching the kept entries. */
  lemma MatchesKeptStep(init: seq<Slot>, last: Slot, read: Reader, assign: Assigner, prev: seq<FieldDescriptor>)
    requires MatchesKept(init, read, assign, prev)
    requires Step(Success(prev), last, read, assign).Success?
    ensures MatchesKept(init + [last], read, assign, Step(Success(prev), last, read, assign).value)
  {
    var slots := init + [last];
    assert slots[..|slots| - 1] == init;
    var out := Step(Success(prev), last, read, assign).value;
    var keptInit := Kept(init, read);
    var kept := Kept(slots, read);
    var d := read(last);
    if d.Success? && d.value.Some? {
      assert out == prev + [FieldDescriptor(assign(d.value.value, last, Ids(prev)), d.value.value)];
      assert kept == keptInit + [|slots| - 1];
      forall k | 0 <= k < |out|
        ensures read(slots[kept[k]]) == Success(Some(out[k].info))
        ensures out[k].id == assign(out[k].info, slots[kept[k]], Ids(out[..k]))
      {
        if k < |prev| {
          assert out[..k] == prev[..k] && out[k] == prev[k];
          assert kept[k] == keptInit[k] && slots[keptInit[k]] == init[keptInit[k]];
        } else {
          assert out[..k] == prev;
        }
      }
    } else {
      assert out == prev && kept == keptInit;
      forall k | 0 <= k < |out| ensures slots[kept[k]] == init[keptInit[k]] { }
    }
  }

  /** The output, entry by entry: descriptor k is the reading of the k-th kept entry, in the
      order of the entries, and its identifier is the one chosen given the identifiers of the
      descriptors before it. */
  lemma {:induction false} OutputIsKeptEntries(slots: seq<Slot>, read: Reader, assign: Assigner)
    requires Fold(slots, read, assign).Success?
    ensures var out := Fold(slots, read, assign).value;
      var kept := Kept(slots, read);
      && |out| == |kept|
      && forall k :: 0 <= k < |out| ==>
        && read(slots[kept[k]]) == Success(Some(out[k].info))
        && out[k].id == assign(out[k].info, slots[kept[k]], Ids(out[..k]))
  {
    if slots != [] {
      var init := slots[..|slots| - 1];
      var last := slots[|slots| - 1];
      assert Fold(slots, read, assign) == Step(Fold(init, read, assign), last, read, assign);
      OutputIsKeptEntries(init, read, assign);
      assert slots == init + [last];
      MatchesKeptStep(init, last, read, assign, Fold(init, read, assign).value);
    }
  }

  /** Description of an entry that reports the entry's page and non-negative sizes. */
  predicate Reports(s: Slot, d: Result<Option<FieldInfo>>) {
    d.Success? && d.value.Some? ==> d.value.value.page == s.page && d.value.value.width >= 0.0 && d.value.value.height >= 0.0
  }

  ghost predicate AlwaysReports(read: Reader) {
    forall s :: Reports(s, read(s))
  }

  lemma EntryReaderReports(v: Version, objects: LinkedObjects, rt: ExtractRuntime)
    ensures AlwaysReports(EntryReader(v, objects, rt))
  {
    forall s ensures Reports(s, EntryReader(v, objects, rt)(s)) {
      DescribeFacts(v, s, objects, rt);
    }
  }

  /** Descriptors of a reading that always reports carry their entry's page and non-negative sizes. */
  lemma DescriptorsReport(slots: seq<Slot>, read: Reader, assign: Assigner)
    requires AlwaysReports(read)
    requires Fold(slots, read, assign).Success?
    ensures var out := Fold(slots, read, assign).value;
      var kept := Kept(slots, read);
      && |out| == |kept|
      && forall k :: 0 <= k < |out| ==>
        out[k].info.page == slots[kept[k]].page && out[k].info.width >= 0.0 && out[k].info.height >= 0.0
  {
    OutputIsKeptEntries(slots, read, assign);
    var out := Fold(slots, read, assign).value;
    var kept := Kept(slots, read);
    forall k | 0 <= k < |out|
      ensures out[k].info.page == slots[kept[k]].page && out[k].info.width >= 0.0 && out[k].info.height >= 0.0
    {
      assert Reports(slots[kept[k]], read(slots[kept[k]]));
    }
  }

  /** Entries carry page numbers of the document, counted from 1. */
  lemma {:induction false} DocSlotsPages(pages: seq<Option<seq<Ref>>>)
    ensures forall k :: 0 <= k < |DocSlots(pages)| ==> 1 <= DocSlots(pages)[k].page <= |pages|
    decreases |pages|
  {
    if pages != [] {
      var init := pages[..|pages| - 1];
      DocSlotsPages(init);
      var a: seq<Slot> := DocSlots(init);
      var b: seq<Slot> := PageSlots(|pages|, pages[|pages| - 1]);
      assert DocSlots(pages) == a + b;
      forall k | 0 <= k < |a + b| ensures 1 <= (a + b)[k].page <= |pages| {
        if k < |a| { assert (a + b)[k] == a[k]; } else { assert (a + b)[k] == b[k - |a|]; }
      }
    }
  }

  /** Page-major order of two entries. */
  predicate SlotBefore(x: Slot, y: Slot) {
    x.page < y.page || (x.page == y.page && x.idx < y.idx)
  }

  /** Entries come page by page, each page's in /Annots order. */
  lemma {:induction false} DocSlotsOrdered(pages: seq<Option<seq<Ref>>>)
    ensures forall i, j :: 0 <= i < j < |DocSlots(pages)| ==> SlotBefore(DocSlots(pages)[i], DocSlots(pages)[j])
    decreases |pages|
  {
    if pages != [] {
      var init := pages[..|pages| - 1];
      DocSlotsOrdered(init);
      DocSlotsPages(init);
      var a: seq<Slot> := DocSlots(init);
      var b: seq<Slot> := PageSlots(|pages|, pages[|pages| - 1]);
      assert DocSlots(pages) == a + b;
      forall i, j | 0 <= i < j < |a + b| ensures SlotBefore((a + b)[i], (a + b)[j]) {
        if j < |a| {
          assert (a + b)[i] == a[i] && (a + b)[j] == a[j];
        } else if i < |a| {
          assert (a + b)[i] == a[i] && (a + b)[j] == b[j - |a|];
        } else {
          assert (a + b)[i] == b[i - |a|] && (a + b)[j] == b[j - |a|];
        }
      }
    }
  }

  /** The corrected pass gives pairwise distinct identifiers. */
  lemma ExtractIdsUnique(doc: Doc, rt: ExtractRuntime)
    requires LinksOk(doc.objects)
    requires ExtractSpec(Intended, doc, rt).Success?
    ensures var out := ExtractSpec(Intended, doc, rt).value;
      forall i, j :: 0 <= i < j < |out| ==> out[i].id != out[j].id
  {
    IdsUnique(DocSlots(doc.pages), EntryReader(Intended, doc.objects, rt), IdAssigner(Intended));
  }

  /** Each descriptor of `extract_fields` is the description of an entry of the document, in the
      order of the entries, with the identifier chosen from the names before it. */
  lemma ExtractDescribesEntries(v: Version, doc: Doc, rt: ExtractRuntime)
    requires LinksOk(doc.objects)
    requires ExtractSpec(v, doc, rt).Success?
    ensures var out := ExtractSpec(v, doc, rt).value;
      var slots := DocSlots(doc.pages);
      var kept := Kept(slots, EntryReader(v, doc.objects, rt));
      && |out| == |kept|
      && forall k :: 0 <= k < |out| ==>
        && Describe(v, slots[kept[k]], doc.objects, rt) == Success(Some(out[k].info))
        && out[k].id == ChooseId(v, BaseId(out[k].info.fieldName, slots[kept[k]].page, slots[kept[k]].idx),
                                 slots[kept[k]].page, slots[kept[k]].idx, Ids(out[..k]))
  {
    OutputIsKeptEntries(DocSlots(doc.pages), EntryReader(v, doc.objects, rt), IdAssigner(v));
  }

  /** The descriptors of `extract_fields` have non-negative sizes and a page of the document,
      and come page by page. */
  lemma ExtractPagesAndSizes(v: Version, doc: Doc, rt: ExtractRuntime)
    requires LinksOk(doc.objects)
    requires ExtractSpec(v, doc, rt).Success?
    ensures var out := ExtractSpec(v, doc, rt).value;
      && (forall k :: 0 <= k < |out| ==>
            out[k].info.width >= 0.0 && out[k].info.height >= 0.0 && 1 <= out[k].info.page <= |doc.pages|)
      && (forall i, j :: 0 <= i < j < |out| ==> out[i].info.page <= out[j].info.page)
  {
    var slots := DocSlots(doc.pages);
    var read := EntryReader(v, doc.objects, rt);
    EntryReaderReports(v, doc.objects, rt);
    DescriptorsReport(slots, read, IdAssigner(v));
    DocSlotsPages(doc.pages);
    DocSlotsOrdered(doc.pages);
    var out := ExtractSpec(v, doc, rt).value;
    var kept := Kept(slots, read);
    forall i, j | 0 <= i < j < |out| ensures out[i].info.page <= out[j].info.page {
      assert SlotBefore(slots[kept[i]], slots[kept[j]]);
    }
  }

  /** Two widgets with the same non-blank name: the first keeps the bare name. */
  lemma FirstOccurrenceKeepsName(base: string, page: nat, idx: nat, seen: set<string>)
    requires base !in seen
    ensures AssignId(base, page, idx, seen) == base
    ensures AssignId(base, page, idx, seen + {base}) != base
  {
  }

  /** A base identifier has an `@` only when the field name has one. */
  lemma BaseIdAvoidsAt(fieldName: string, page: nat, idx: nat)
    requires '@' !in fieldName
    ensures '@' !in BaseId(fieldName, page, idx)
  {
    var t := PyStrip(fieldName);
    var l := TrimLeft(fieldName, IsPySpace);
    assert '@' !in l by {
      assert l == fieldName[|fieldName| - |l|..];
    }
    assert t == l[..|t|];
    if t == [] {
      assert PositionalId(page, idx) == ['p'] + NatToDecimal(page) + ['-'] + NatToDecimal(idx);
    }
  }

  /** The suffix names its entry: two entries with the same suffix are the same entry. */
  lemma SuffixInjective(page1: nat, idx1: nat, page2: nat, idx2: nat)
    requires Suffix(page1, idx1) == Suffix(page2, idx2)
    ensures page1 == page2 && idx1 == idx2
  {
    var r1 := NatToDecimal(page1) + ['-'] + NatToDecimal(idx1);
    var r2 := NatToDecimal(page2) + ['-'] + NatToDecimal(idx2);
    assert Suffix(page1, idx1) == ['@'] + r1 && Suffix(page2, idx2) == ['@'] + r2;
    assert r1 == Suffix(page1, idx1)[1..] == Suffix(page2, idx2)[1..] == r2;
    SplitOnceOf(NatToDecimal(page1), '-', NatToDecimal(idx1));
    SplitOnceOf(NatToDecimal(page2), '-', NatToDecimal(idx2));
    DecValueOfNatToDecimal(page1);
    DecValueOfNatToDecimal(page2);
    DecValueOfNatToDecimal(idx1);
    DecValueOfNatToDecimal(idx2);
  }

  /** Two suffixed identifiers over bases without `@` are equal only for the same base and the
      same entry. */
  lemma SuffixedEqual(a: string, page1: nat, idx1: nat, b: string, page2: nat, idx2: nat)
    requires '@' !in a && '@' !in b
    requires a + Suffix(page1, idx1) == b + Suffix(page2, idx2)
    ensures a == b && page1 == page2 && idx1 == idx2
  {
    var x := Suffix(page1, idx1)[1..];
    var y := Suffix(page2, idx2)[1..];
    assert a + Suffix(page1, idx1) == a + ['@'] + x;
    assert b + Suffix(page2, idx2) == b + ['@'] + y;
    SplitOnceOf(a, '@', x);
    SplitOnceOf(b, '@', y);
    assert Suffix(page1, idx1) == ['@'] + x && Suffix(page2, idx2) == ['@'] + y;
    SuffixInjective(page1, idx1, page2, idx2);
  }

  /** As written, identifiers of entries in page-major order are pairwise distinct when no field
      name holds an `@`: a suffixed identifier then names its own entry. */
  lemma AsWrittenIdsUnique(slots: seq<Slot>, read: Reader)
    requires forall i, j :: 0 <= i < j < |slots| ==> SlotBefore(slots[i], slots[j])
    requires Fold(slots, read, IdAssigner(AsWritten)).Success?
    requires var out := Fold(slots, read, IdAssigner(AsWritten)).value;
      forall k :: 0 <= k < |out| ==> '@' !in out[k].info.fieldName
    ensures var out := Fold(slots, read, IdAssigner(AsWritten)).value;
      forall i, j :: 0 <= i < j < |out| ==> out[i].id != out[j].id
  {
    var assign := IdAssigner(AsWritten);
    var out := Fold(slots, read, assign).value;
    var kept := Kept(slots, read);
    OutputIsKeptEntries(slots, read, assign);
    forall i, j | 0 <= i < j < |out| ensures out[i].id != out[j].id {
      var si, sj := slots[kept[i]], slots[kept[j]];
      var bi := BaseId(out[i].info.fieldName, si.page, si.idx);
      var bj := BaseId(out[j].info.fieldName, sj.page, sj.idx);
      BaseIdAvoidsAt(out[i].info.fieldName, si.page, si.idx);
      BaseIdAvoidsAt(out[j].info.fieldName, sj.page, sj.idx);
      assert SlotBefore(si, sj);
      InIds(out[..j]);
      assert out[..j][i] == out[i];
      if bj !in Ids(out[..j]) {
        assert out[j].id == bj;
      } else {
        assert out[j].id == bj + Suffix(sj.page, sj.idx);
        assert out[j].id[|bj|] == '@';
        if out[i].id == bi {
          assert '@' in out[j].id;
        } else {
          assert out[i].id == bi + Suffix(si.page, si.idx);
          if out[i].id == out[j].id {
            SuffixedEqual(bi, si.page, si.idx, bj, sj.page, sj.idx);
          }
        }
      }
    }
  }

  /** `extract_fields` as written gives pairwise distinct identifiers when no field name holds
      an `@`. */
  lemma ExtractIdsUniqueAsWritten(doc: Doc, rt: ExtractRuntime)
    requires LinksOk(doc.objects)
    requires ExtractSpec(AsWritten, doc, rt).Success?
    requires var out := ExtractSpec(AsWritten, doc, rt).value;
      forall k :: 0 <= k < |out| ==> '@' !in out[k].info.fieldName
    ensures var out := ExtractSpec(AsWritten, doc, rt).value;
      forall i, j :: 0 <= i < j < |out| ==> out[i].id != out[j].id
  {
    DocSlotsOrdered(doc.pages);
    AsWrittenIdsUnique(DocSlots(doc.pages), EntryReader(AsWritten, doc.objects, rt));
  }

  /** As written, a descriptor repeats an identifier emitted before it exactly when both its base
      identifier and the base with its own suffix are already taken (for fields named `A`,
      `A@1-2`, `A` at entries 0 to 2 of page 1 the third is given `A@1-2` again); corrected, it
      never does. */
  lemma ExtractIdRepeats(v: Version, doc: Doc, rt: ExtractRuntime)
    requires LinksOk(doc.objects)
    requires ExtractSpec(v, doc, rt).Success?
    ensures var out := ExtractSpec(v, doc, rt).value;
      var slots := DocSlots(doc.pages);
      var kept := Kept(slots, EntryReader(v, doc.objects, rt));
      && |out| == |kept|
      && forall k :: 0 <= k < |out| ==>
        var s := slots[kept[k]];
        var base := BaseId(out[k].info.fieldName, s.page, s.idx);
        out[k].id in Ids(out[..k]) <==>
          v == AsWritten && base in Ids(out[..k]) && base + Suffix(s.page, s.idx) in Ids(out[..k])
  {
    ExtractDescribesEntries(v, doc, rt);
  }

  /** A subtype that is a name object, whose string form starts with `/`. */
  predicate SlashedName(o: Option<PdfObj>) {
    o.Some? && o.value.PName? && StartsWith(o.value.n, "/")
  }

  /** An entry whose /Subtype is a name: as written it is skipped, since the name's string form
      keeps its slash and so is never `Widget`; corrected, the name `/Widget` reads as `Widget`
      and a usable rectangle makes the entry a descriptor. */
  lemma NameSubtypeDescribed(slot: Slot, objects: map<Ref, Dict>, rt: ExtractRuntime)
    requires LinksOk(objects) && slot.ref in objects
    requires SlashedName(SubtypeOf(objects[slot.ref], objects))
    ensures Describe(AsWritten, slot, objects, rt) == Success(None)
    ensures SubtypeOf(objects[slot.ref], objects) == Some(PName("/Widget")) ==>
      match RectOf(RectValueOf(objects[slot.ref], objects), rt)
      case Success(Some(rc)) => Describe(Intended, slot, objects, rt) == Success(Some(Info(Intended, objects[slot.ref], rc, slot.page, objects, rt)))
      case _ => true
  {
    var n := SubtypeOf(objects[slot.ref], objects).value.n;
    assert StrVal(AsWritten, SubtypeOf(objects[slot.ref], objects), objects, rt) == n;
    assert n[0] == '/' && "Widget"[0] == 'W';
  }

  /** A pass whose every entry is skipped emits nothing. */
  lemma {:induction false} AllSkipped(slots: seq<Slot>, read: Reader, assign: Assigner)
    requires forall k :: 0 <= k < |slots| ==> read(slots[k]) == Success(None)
    ensures Fold(slots, read, assign) == Success([])
  {
    if slots != [] {
      var init := slots[..|slots| - 1];
      forall k | 0 <= k < |init| ensures read(init[k]) == Success(None) {
        assert init[k] == slots[k];
      }
      AllSkipped(init, read, assign);
    }
  }

  /** As written, a document whose annotations all carry their /Subtype as a name, as every
      conforming PDF does (section 12.5.2 of ISO 32000-1), extracts to no field at all. */
  lemma NameSubtypesExtractNothing(doc: Doc, rt: ExtractRuntime)
    requires LinksOk(doc.objects)
    requires forall r :: r in doc.objects ==> SlashedName(SubtypeOf(doc.objects[r], doc.objects))
    ensures ExtractSpec(AsWritten, doc, rt) == Success([])
  {
    var slots := DocSlots(doc.pages);
    var read := EntryReader(AsWritten, doc.objects, rt);
    forall k | 0 <= k < |slots| ensures read(slots[k]) == Success(None) {
      if slots[k].ref in doc.objects {
        NameSubtypeDescribed(slots[k], doc.objects, rt);
      }
    }
    AllSkipped(slots, read, IdAssigner(AsWritten));
  }

  /** As written, a field's name is found on its parent when it has one, and on the widget only
      when it has none. */
  lemma NameComesFromParent(v: Version, annot: Dict, objects: map<Ref, Dict>, rc: Rect, page: nat, rt: ExtractRuntime)
    requires ParentLinkOk(annot) && LinksOk(objects)
    requires ParentOf(annot, objects).Some?
    requires "/T" in ParentOf(annot, objects).value
    ensures Info(v, annot, rc, page, objects, rt).fieldName
         == StrVal(v, Resolve(ParentOf(annot, objects).value["/T"], objects), objects, rt)
  {
  }
}
