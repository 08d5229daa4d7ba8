/** `apply_patches`: index the patch list, walk every page's /Annots matching each entry to a
    patch (dropping hidden ones, patching the others), create widgets for unmatched "create"
    patches, and set /NeedAppearances. The functions state the pass for a `Version`: the script
    as written, or with the three corrections of the findings (lookup by stripped name, no
    creation of hidden patches, registration of widgets in a document without a form). The
    `PdfWriter` class runs the script as written in place. */
module AcroFormApply {
  import opened Wrappers
  import opened Text
  import opened Values
  import opened Pdf
  import opened AcroFormPatchRules
  import opened AcroFormPatchIndex
  import opened AcroFormPatchWidget

  /** The writer's document while the pass runs, with the applied count and the identifiers of
      the patches matched so far. */
  datatype Run = Run(
    objects: LinkedObjects,
    objectCount: nat,
    pages: seq<Option<seq<Ref>>>,
    acroForm: Option<AcroForm>,
    count: nat,
    matched: set<string>)

  function DocOf(st: Run): Doc {
    Doc(st.objects, st.objectCount, st.pages, st.acroForm)
  }

  // ---------------------------------------------------------------- matching an entry

  /** The text a /T value is looked up by: the text of a string or name object. Other objects
      are never equal to a key of the name table (or cannot be hashed), so they match nothing. */
  function NameText(t: Option<PdfObj>): Option<string> {
    match t
    case Some(PStr(s)) => Some(s)
    case Some(PName(n)) => Some(n)
    case _ => None
  }

  /** The name-table lookup as the script writes it: the /T text exactly as stored. */
  function LookupAsWritten(names: map<string, Object>, t: string): Option<Object> {
    if t in names then Some(names[t]) else None
  }

  /** The name-table lookup: the /T text, and failing that the stripped text, which is the
      identifier the extractor reports for a named field. */
  function LookupName(names: map<string, Object>, t: string): (r: Option<Object>)
    ensures LookupAsWritten(names, t).Some? ==> r == LookupAsWritten(names, t)
    ensures r.Some? <==> t in names || PyStrip(t) in names
  {
    if t in names then Some(names[t]) else if PyStrip(t) in names then Some(names[PyStrip(t)]) else None
  }

  /** The /T text of an entry that resolves, read from the widget or else its parent. */
  function EntryName(ref: Ref, objects: LinkedObjects): Option<string>
    requires ref in objects
  {
    assert ParentLinkOk(objects[ref]);
    NameText(GetInheritable(objects[ref], "/T", objects))
  }

  /** The patch for entry `idx` of page `pageNum`: the positional table first; only without a
      positional hit, and only for an entry that resolves, the name table under its /T. */
  function FindPatch(ix: Index, pageNum: nat, idx: nat, ref: Ref, objects: LinkedObjects): (r: Option<Object>)
    ensures (pageNum as int, idx as int) in ix.pos ==> r == Some(ix.pos[(pageNum as int, idx as int)])
    ensures (pageNum as int, idx as int) !in ix.pos && r.Some? ==>
      ref in objects && EntryName(ref, objects).Some? && r == LookupName(ix.names, EntryName(ref, objects).value)
  {
    if (pageNum as int, idx as int) in ix.pos then Some(ix.pos[(pageNum as int, idx as int)])
    else if ref in objects then
      match EntryName(ref, objects)
      case Some(t) => LookupName(ix.names, t)
      case None => None
    else None
  }

  /** The lookup as written: the name table is consulted under the raw /T text only. */
  function FindPatchAsWritten(ix: Index, pageNum: nat, idx: nat, ref: Ref, objects: LinkedObjects): (r: Option<Object>)
    ensures (pageNum as int, idx as int) in ix.pos ==> r == FindPatch(ix, pageNum, idx, ref, objects)
  {
    if (pageNum as int, idx as int) in ix.pos then Some(ix.pos[(pageNum as int, idx as int)])
    else if ref in objects then
      match EntryName(ref, objects)
      case Some(t) => LookupAsWritten(ix.names, t)
      case None => None
    else None
  }

  /** `patch.get("hidden") is True` on a non-empty patch. */
  predicate Hides(p: Object) {
    p != map[] && PyGet(p, "hidden") == Bool(true)
  }

  // ---------------------------------------------------------------- the page pass

  /** How a matched widget is rewritten: a function of the object table, the entry and its
      patch that keeps the set of object numbers. The page pass is stated for any such function;
      the script's is `WidgetPatcher`. */
  type Patcher = f: (LinkedObjects, Ref, Object) -> LinkedObjects | forall o: LinkedObjects, a: Ref, p: Object :: f(o, a, p).Keys == o.Keys
    witness (o: LinkedObjects, a: Ref, p: Object) => o

  /** The writes for a matched widget (`PatchedWidget`) applied to entry `a`; the pass only asks
      for them when `a` resolves. */
  function WidgetPatcher(py: PyRuntime): Patcher {
    (o: LinkedObjects, a: Ref, p: Object) => if a in o then PatchedWidget(o, a, p, py) else o
  }

  /** How an entry is matched to a patch: from the page number, the entry's index, the entry and
      the object table. The page pass is stated for any such function; the script's is
      `ScriptFinder`, the corrected one `IndexFinder`. */
  type Finder = (nat, nat, Ref, LinkedObjects) -> Option<Object>

  /** The corrected lookup in the tables built from the patch list (`FindPatch`). */
  function IndexFinder(ix: Index): Finder {
    (pageNum: nat, idx: nat, ref: Ref, o: LinkedObjects) => FindPatch(ix, pageNum, idx, ref, o)
  }

  /** The lookup as the script writes it (`FindPatchAsWritten`). */
  function ScriptFinder(ix: Index): Finder {
    (pageNum: nat, idx: nat, ref: Ref, o: LinkedObjects) => FindPatchAsWritten(ix, pageNum, idx, ref, o)
  }

  function FinderFor(v: Version, ix: Index): Finder {
    if v == AsWritten then ScriptFinder(ix) else IndexFinder(ix)
  }

  /** One /Annots entry: a hidden match drops it; an entry that does not resolve is kept; a
      non-empty match is counted, recorded and applied; the entry is kept. */
  function EntryStep(find: Finder, pageNum: nat, idx: nat, ref: Ref, st: Run, kept: seq<Ref>, py: PyRuntime, pw: Patcher): (r: (Run, seq<Ref>))
    ensures r.0.objects.Keys == st.objects.Keys
    ensures r.0.objectCount == st.objectCount && r.0.pages == st.pages && r.0.acroForm == st.acroForm
  {
    var pm := find(pageNum, idx, ref, st.objects);
    if pm.Some? && Hides(pm.value) then (st, kept)
    else if ref !in st.objects then (st, kept + [ref])
    else if pm.Some? && pm.value != map[] then
      (st.(objects := pw(st.objects, ref, pm.value), count := st.count + 1,
          matched := st.matched + {PatchId(pm.value, py)}),
       kept + [ref])
    else (st, kept + [ref])
  }

  /** The first `j` entries of a page, starting from `st`, with the entries kept so far. */
  function Entries(find: Finder, pageNum: nat, annots: seq<Ref>, j: nat, st: Run, py: PyRuntime, pw: Patcher): (r: (Run, seq<Ref>))
    requires j <= |annots|
    ensures r.0.objects.Keys == st.objects.Keys
    ensures r.0.objectCount == st.objectCount && r.0.pages == st.pages && r.0.acroForm == st.acroForm
  {
    if j == 0 then (st, [])
    else
      var prev := Entries(find, pageNum, annots, j - 1, st, py, pw);
      EntryStep(find, pageNum, j - 1, annots[j - 1], prev.0, prev.1, py, pw)
  }

  /** Page `i` (numbered `i + 1`): its entries, then /Annots rewritten when it lost entries. */
  function PageStep(find: Finder, st: Run, i: nat, py: PyRuntime, pw: Patcher): (r: Run)
    requires i < |st.pages|
    ensures |r.pages| == |st.pages| && r.objectCount == st.objectCount && r.acroForm == st.acroForm
    ensures r.objects.Keys == st.objects.Keys
  {
    match st.pages[i]
    case None => st
    case Some(annots) =>
      var (s1, kept) := Entries(find, i + 1, annots, |annots|, st, py, pw);
      if |kept| != |annots| then s1.(pages := s1.pages[i := Some(kept)]) else s1
  }

  /** The first `i` pages. */
  function Pages(find: Finder, st: Run, i: nat, py: PyRuntime, pw: Patcher): (r: Run)
    requires i <= |st.pages|
    ensures |r.pages| == |st.pages| && r.objectCount == st.objectCount && r.acroForm == st.acroForm
    ensures r.objects.Keys == st.objects.Keys
  {
    if i == 0 then st else PageStep(find, Pages(find, st, i - 1, py, pw), i - 1, py, pw)
  }

  // ---------------------------------------------------------------- the create pass

  /** `createIfMissing is True`, a string `createIfMissing` that lower-cases to "true" or "1", or
      `create_if_missing is True`. */
  predicate AsksCreate(p: Object) {
    var c := PyGet(p, "createIfMissing");
    c == Bool(true) || (c.Str? && (PyLower(c.s) == "true" || PyLower(c.s) == "1"))
    || PyGet(p, "create_if_missing") == Bool(true)
  }

  /** `patch.get("hidden") is True`. */
  predicate Hidden(p: Object) {
    PyGet(p, "hidden") == Bool(true)
  }

  /** The create condition as the script writes it: unmatched, and asking for creation or
      carrying a `new-` identifier. */
  predicate CreateQualifiesAsWritten(p: Object, fid: string, matched: set<string>) {
    fid !in matched && (AsksCreate(p) || StartsWith(fid, "new-"))
  }

  /** The create condition: as written, and not hidden. */
  predicate CreateQualifies(p: Object, fid: string, matched: set<string>) {
    CreateQualifiesAsWritten(p, fid, matched) && !Hidden(p)
  }

  predicate Qualifies(v: Version, p: Object, fid: string, matched: set<string>) {
    if v == AsWritten then CreateQualifiesAsWritten(p, fid, matched) else CreateQualifies(p, fid, matched)
  }

  /** How a created widget's dictionary is built from the patch, the stripped name and the
      converted rect: any function whose dictionaries have no /Parent. The create pass is
      stated for any such function; the script's is `WidgetMaker`. */
  type Maker = f: (Object, string, PdfObj) -> Dict | forall p: Object, name: string, rect: PdfObj :: "/Parent" !in f(p, name, rect)
    witness (p: Object, name: string, rect: PdfObj) => map[]

  /** The script's widget dictionary (`NewWidget`). */
  function WidgetMaker(py: PyRuntime): Maker {
    (p: Object, name: string, rect: PdfObj) => NewWidget(p, name, rect, py)
  }

  /** The new widget: /Subtype /Widget, the rect, the name as /T, the mapped type or /Tx, the
      value (or the empty string) as /V and /DV, and /DA when the patch asks for one. */
  function NewWidget(p: Object, name: string, rect: PdfObj, py: PyRuntime): (w: Dict)
    ensures "/Parent" !in w
  {
    WidgetDict(name, rect, PatchFieldType(p, py).GetOr("/Tx"), DefaultText(p, py).GetOr(""), DaText(p, py))
  }

  function WidgetDict(name: string, rect: PdfObj, ft: string, val: string, da: Option<string>): (w: Dict)
    ensures "/Parent" !in w
  {
    var base := map[
      "/Subtype" := PName("/Widget"), "/Rect" := rect, "/T" := PStr(name),
      "/FT" := PName(ft), "/V" := PStr(val), "/DV" := PStr(val)];
    if da.Some? then base["/DA" := PStr(da.value)] else base
  }

  /** Adds widget `w` as the next indirect object, appends it to page `page`'s /Annots and to
      /Fields (creating the form with /NeedAppearances true when absent), and counts it. */
  function AddWidget(st: Run, page: nat, w: Dict): (r: Run)
    requires page < |st.pages| && "/Parent" !in w
  {
    var ref := st.objectCount + 1;
    var objs: LinkedObjects := st.objects[ref := w];
    st.(objects := objs, objectCount := ref,
      pages := st.pages[page := Some(st.pages[page].GetOr([]) + [ref])],
      acroForm := Some(if st.acroForm.Some? then st.acroForm.value.(fields := st.acroForm.value.fields + [ref]) else AcroForm([ref], true)),
      count := st.count + 1)
  }

  /** The registration as written for a document without /AcroForm: the new form is a plain
      dictionary, which the library's dictionary objects refuse (ValueError, swallowed by the
      create loop's handler), so the widget stays on the page, outside any /Fields, and is not
      counted. With a form present it is `AddWidget`. */
  function AddWidgetAsWritten(st: Run, page: nat, w: Dict): (r: Run)
    requires page < |st.pages| && "/Parent" !in w
  {
    if st.acroForm.Some? then AddWidget(st, page, w)
    else
      var ref := st.objectCount + 1;
      var objs: LinkedObjects := st.objects[ref := w];
      st.(objects := objs, objectCount := ref,
        pages := st.pages[page := Some(st.pages[page].GetOr([]) + [ref])])
  }

  function Register(v: Version, st: Run, page: nat, w: Dict): (r: Run)
    requires page < |st.pages| && "/Parent" !in w
  {
    if v == AsWritten then AddWidgetAsWritten(st, page, w) else AddWidget(st, page, w)
  }

  /** One patch of the create pass. A non-dictionary raises AttributeError on `get`. */
  function CreateStep(v: Version, p: Value, st: Run, py: PyRuntime, mk: Maker): Result<Run> {
    if !p.Dict? then Failure("AttributeError") else CreateFor(v, p.entries, st, py, mk)
  }

  /** A patch that does not qualify, or lacks a rect list of at least four entries, is skipped. */
  function CreateFor(v: Version, d: Object, st: Run, py: PyRuntime, mk: Maker): Result<Run> {
    var fid := PatchId(d, py);
    var rect := PyGet(d, "rect");
    if !Qualifies(v, d, fid, st.matched) || !rect.List? || |rect.items| < 4 then Success(st)
    else CreateNamed(v, d, NameValue(d, fid), st, py, mk)
  }

  /** `fieldName or field_name or fid or "Field"`. */
  function NameValue(d: Object, fid: string): Value {
    PyOr(PyOr(PyOr(PyGet(d, "fieldName"), PyGet(d, "field_name")), Str(fid)), Str("Field"))
  }

  /** `p.get("page", 1)`. */
  function PageValue(d: Object): Value {
    if "page" in d then d["page"] else Int(1)
  }

  /** A name that is not a string raises AttributeError on `strip`; a page `int()` rejects
      raises its TypeError or ValueError (the call sits outside the loop's handler). */
  function CreateNamed(v: Version, d: Object, nv: Value, st: Run, py: PyRuntime, mk: Maker): Result<Run> {
    if !nv.Str? then Failure("AttributeError")
    else match PyIntOf(PageValue(d))
      case None => Failure(PyIntError(PageValue(d)))
      case Some(pn) => CreateOnPage(v, d, PyStrip(nv.s), pn, st, py, mk)
  }

  /** A page out of range, or a rect entry `float()` rejects, skips the patch; otherwise the
      widget is added. */
  function CreateOnPage(v: Version, d: Object, name: string, pn: int, st: Run, py: PyRuntime, mk: Maker): Result<Run> {
    if pn < 1 || pn > |st.pages| then Success(st)
    else match RectArray(PyGet(d, "rect"), py)
      case None => Success(st)
      case Some(ra) => Success(Register(v, st, pn - 1, mk(d, name, ra)))
  }

  /** The first `i` steps of a pass over the patches; the first failure ends it. */
  function FoldSteps(step: (Value, Run) -> Result<Run>, ps: seq<Value>, i: nat, st: Run): Result<Run>
    requires i <= |ps|
  {
    if i == 0 then Success(st)
    else match FoldSteps(step, ps, i - 1, st)
      case Failure(e) => Failure(e)
      case Success(s) => step(ps[i - 1], s)
  }

  /** The first `i` patches of the create pass. */
  function Creates(v: Version, ps: seq<Value>, i: nat, st: Run, py: PyRuntime, mk: Maker): Result<Run>
    requires i <= |ps|
  {
    FoldSteps((p, s) => CreateStep(v, p, s, py, mk), ps, i, st)
  }

  /** After a successful prefix, one more patch is one more create step. */
  lemma CreatesNext(v: Version, ps: seq<Value>, i: nat, st: Run, py: PyRuntime, mk: Maker, s: Run)
    requires i < |ps| && Creates(v, ps, i, st, py, mk) == Success(s)
    ensures Creates(v, ps, i + 1, st, py, mk) == CreateStep(v, ps[i], s, py, mk)
  {
  }

  /** `set_need_appearances_writer(True)`: sets the flag, first adding an empty form dictionary
      as a new indirect object when the document has none. */
  function NeedAppearances(st: Run): (r: Run)
    ensures r.acroForm.Some? && r.acroForm.value.needAppearances
    ensures r.objects == st.objects && r.pages == st.pages && r.count == st.count && r.matched == st.matched
    ensures st.acroForm.Some? ==> r.acroForm.value.fields == st.acroForm.value.fields && r.objectCount == st.objectCount
    ensures st.acroForm.None? ==> r.acroForm.value.fields == [] && r.objectCount == st.objectCount + 1
  {
    match st.acroForm
    case Some(a) => st.(acroForm := Some(a.(needAppearances := true)))
    case None => st.(acroForm := Some(AcroForm([], true)), objectCount := st.objectCount + 1)
  }

  /** The writer's state before the page pass: the document, nothing applied, nothing matched. */
  function Start(doc: Doc): Run
    requires LinksOk(doc.objects)
  {
    Run(doc.objects, doc.objectCount, doc.pages, doc.acroForm, 0, {})
  }

  /** The page pass over every page, with the tables `ix`. */
  function PagePass(v: Version, doc: Doc, ix: Index, py: PyRuntime, pw: Patcher): Run
    requires LinksOk(doc.objects)
  {
    Pages(FinderFor(v, ix), Start(doc), |doc.pages|, py, pw)
  }

  /** The whole pass for a given patcher and widget maker: the applied count and the document
      written out, or the exception that ends the script. */
  function ApplyWith(v: Version, doc: Doc, patches: Value, py: PyRuntime, pw: Patcher, mk: Maker): Result<Run>
    requires LinksOk(doc.objects)
  {
    var ps := PatchList(patches);
    match BuildIndex(ps, py)
    case Failure(e) => Failure(e)
    case Success(ix) =>
      match Creates(v, ps, |ps|, PagePass(v, doc, ix, py, pw), py, mk)
      case Failure(e) => Failure(e)
      case Success(st) => Success(NeedAppearances(st))
  }

  /** The whole pass with the script's patcher and widget maker. */
  function ApplySpec(v: Version, doc: Doc, patches: Value, py: PyRuntime): Result<Run>
    requires LinksOk(doc.objects)
  {
    ApplyWith(v, doc, patches, py, WidgetPatcher(py), WidgetMaker(py))
  }

  // ---------------------------------------------------------------- facts the methods use

  /** Once a pass has failed, it stays failed with the same error. */
  lemma {:induction false} FoldStaysFailed(step: (Value, Run) -> Result<Run>, ps: seq<Value>, i: nat, j: nat, st: Run)
    requires i <= j <= |ps| && FoldSteps(step, ps, i, st).Failure?
    ensures FoldSteps(step, ps, j, st) == FoldSteps(step, ps, i, st)
    decreases j
  {
    if j > i {
      FoldStaysFailed(step, ps, i, j - 1, st);
    }
  }

  /** Writing `x` and then `y` is writing `x + y`. */
  lemma {:induction false} ApplyWritesConcat(objs: LinkedObjects, x: seq<Write>, y: seq<Write>)
    ensures ApplyWrites(objs, x + y) == ApplyWrites(ApplyWrites(objs, x), y)
    decreases |y|
  {
    if y == [] {
      assert x + y == x;
    } else {
      ApplyWritesConcat(objs, x, y[..|y| - 1]);
      assert (x + y)[..|x + y| - 1] == x + y[..|y| - 1];
      assert (x + y)[|x + y| - 1] == y[|y| - 1];
    }
  }

  lemma ApplyWritesFive(objs: LinkedObjects, s1: seq<Write>, s2: seq<Write>, s3: seq<Write>, s4: seq<Write>, s5: seq<Write>)
    ensures ApplyWrites(objs, s1 + s2 + s3 + s4 + s5)
      == ApplyWrites(ApplyWrites(ApplyWrites(ApplyWrites(ApplyWrites(objs, s1), s2), s3), s4), s5)
  {
    ApplyWritesConcat(objs, s1 + s2 + s3 + s4, s5);
    ApplyWritesConcat(objs, s1 + s2 + s3, s4);
    ApplyWritesConcat(objs, s1 + s2, s3);
    ApplyWritesConcat(objs, s1, s2);
  }

  lemma ApplyWritesOne(objs: LinkedObjects, r: Ref, key: string, v: PdfObj)
    requires r in objs && key != "/Parent"
    ensures ApplyWrites(objs, [Write(r, key, v)]) == SetKey(objs, r, key, v)
  {
    assert [Write(r, key, v)][..0] == [];
  }

  // ---------------------------------------------------------------- the writer

  /** The writer object the script patches in place: its indirect objects, the number of objects
      it has allocated, each page's /Annots and the /AcroForm entry. */
  class PdfWriter {
    var objects: LinkedObjects
    var objectCount: nat
    var pages: seq<Option<seq<Ref>>>
    var acroForm: Option<AcroForm>

    function Contents(): Doc
      reads this
    {
      Doc(objects, objectCount, pages, acroForm)
    }

    /** The writer's document as a pass state, with the applied count and the matched ids. */
    function State(count: nat, matched: set<string>): (st: Run)
      reads this
      ensures st.objects == objects && st.objectCount == objectCount && st.pages == pages && st.acroForm == acroForm
      ensures st.count == count && st.matched == matched
    {
      Run(objects, objectCount, pages, acroForm, count, matched)
    }

    /** `writer.append(reader)`: the writer starts out holding the document. */
    constructor (doc: Doc)
      requires LinksOk(doc.objects)
      ensures Contents() == doc
    {
      objects := doc.objects;
      objectCount := doc.objectCount;
      pages := doc.pages;
      acroForm := doc.acroForm;
    }

    /** `obj[key] = value` on indirect object `r`, when there is a value. */
    method SetEntry(r: Ref, key: string, v: Option<PdfObj>)
      requires r in objects && key != "/Parent"
      modifies this
      ensures objects == ApplyWrites(old(objects), Put(r, key, v))
      ensures objectCount == old(objectCount) && pages == old(pages) && acroForm == old(acroForm)
    {
      if v.Some? {
        ApplyWritesOne(objects, r, key, v.value);
        objects := SetKey(objects, r, key, v.value);
      } else {
        assert Put(r, key, v) == [];
      }
    }

    /** Two writes in a row, as one. */
    method SetEntries(r: Ref, k1: string, v1: Option<PdfObj>, k2: string, v2: Option<PdfObj>)
      requires r in objects && k1 != "/Parent" && k2 != "/Parent"
      modifies this
      ensures objects == ApplyWrites(old(objects), Put(r, k1, v1) + Put(r, k2, v2))
      ensures objectCount == old(objectCount) && pages == old(pages) && acroForm == old(acroForm)
    {
      ghost var o := objects;
      SetEntry(r, k1, v1);
      SetEntry(r, k2, v2);
      ApplyWritesConcat(o, Put(r, k1, v1), Put(r, k2, v2));
    }

    /** The loop that builds the /Opt array. */
    static method OptionList(items: seq<Value>, py: PyRuntime) returns (opts: seq<PdfObj>)
      ensures opts == OptArray(items, py)
    {
      opts := [];
      var k := 0;
      while k < |items|
        invariant 0 <= k <= |items|
        invariant opts == OptArray(items[..k], py)
      {
        assert items[..k + 1][..k] == items[..k];
        opts := opts + [OptItem(items[k], py)];
        k := k + 1;
      }
      assert items[..|items|] == items;
    }

    /** /Rect and /TU on the widget. */
    method WriteFrame(a: Ref, w: Asked)
      requires a in objects
      modifies this
      ensures objects == ApplyWrites(old(objects), FrameWrites(a, w))
      ensures objectCount == old(objectCount) && pages == old(pages) && acroForm == old(acroForm)
    {
      SetEntries(a, "/Rect", w.rect, "/TU", TextObj(w.tip));
    }

    /** /V and /DV on the widget, then on its parent. */
    method WriteValues(a: Ref, parent: Option<Ref>, w: Asked)
      requires a in objects && (parent.Some? ==> parent.value in objects)
      modifies this
      ensures objects == ApplyWrites(ApplyWrites(old(objects), WidgetValueWrites(a, w)), ParentValueWrites(parent, w))
      ensures objectCount == old(objectCount) && pages == old(pages) && acroForm == old(acroForm)
    {
      ghost var o := objects;
      if w.value.Some? {
        var v := Some(PStr(w.value.value));
        SetEntries(a, "/V", v, "/DV", v);
        assert Put(a, "/V", v) + Put(a, "/DV", v) == WidgetValueWrites(a, w);
        ghost var o1 := objects;
        if parent.Some? {
          SetEntries(parent.value, "/V", v, "/DV", v);
          assert Put(parent.value, "/V", v) + Put(parent.value, "/DV", v) == ParentValueWrites(parent, w);
        } else {
          assert ParentValueWrites(parent, w) == [];
        }
      } else {
        assert WidgetValueWrites(a, w) == [] && ParentValueWrites(parent, w) == [];
      }
    }

    /** /FT, /MaxLen and /Opt on the parent; the option list is built item by item. */
    method WriteParentEntries(p: Ref, patch: Object, py: PyRuntime)
      requires p in objects
      modifies this
      ensures objects == ApplyWrites(old(objects), ParentWrites(Some(p), Asks(patch, py)))
      ensures objectCount == old(objectCount) && pages == old(pages) && acroForm == old(acroForm)
    {
      ghost var o := objects;
      ghost var w := Asks(patch, py);
      SetEntries(p, "/FT", NameObj(PatchFieldType(patch, py)), "/MaxLen", IntObj(MaxLenValue(patch)));
      var options := PyGet(patch, "options");
      var opt: Option<PdfObj> := None;
      if options.List? && |options.items| > 0 {
        var opts := OptionList(options.items, py);
        opt := Some(PArray(opts));
      }
      assert opt == w.opt;
      SetEntry(p, "/Opt", opt);
      ApplyWritesConcat(o, Put(p, "/FT", NameObj(w.fieldType)) + Put(p, "/MaxLen", IntObj(w.maxLen)), Put(p, "/Opt", opt));
    }

    /** The writes for one matched widget `a`, in the script's order; the parent is resolved
        once, before the first write. */
    method PatchWidget(a: Ref, patch: Object, py: PyRuntime)
      requires a in objects
      modifies this
      ensures objects == PatchedWidget(old(objects), a, patch, py)
      ensures objectCount == old(objectCount) && pages == old(pages) && acroForm == old(acroForm)
    {
      ghost var o0 := objects;
      var parent := ParentRef(objects, a);
      var w := Asks(patch, py);
      WriteFrame(a, w);
      WriteValues(a, parent, w);
      if parent.Some? {
        WriteParentEntries(parent.value, patch, py);
      } else {
        assert ParentWrites(parent, w) == [];
      }
      SetEntry(a, "/DA", TextObj(w.da));
      ApplyWritesFive(o0, FrameWrites(a, w), WidgetValueWrites(a, w), ParentValueWrites(parent, w),
        ParentWrites(parent, w), DaWrites(a, w));
    }

    /** `apply_patches` on the writer: index the patches, walk the pages, create the missing
        widgets and set /NeedAppearances. It ends with the applied count exactly when the pass
        as written does not raise, and then leaves the document that pass describes; otherwise
        it fails with the exception that pass raises. */
    method ApplyPatches(patches: Value, py: PyRuntime) returns (r: Result<nat>)
      modifies this
      ensures var spec := ApplySpec(AsWritten, old(Contents()), patches, py);
        && (r.Success? <==> spec.Success?)
        && (r.Success? ==> r.value == spec.value.count && Contents() == DocOf(spec.value))
        && (r.Failure? ==> spec == Failure(r.error))
    {
      var ps := PatchList(patches);
      var pos: map<(int, int), Object> := map[];
      var names: map<string, Object> := map[];
      var i := 0;
      while i < |ps|
        invariant 0 <= i <= |ps|
        invariant BuildIndex(ps[..i], py) == Success(Index(pos, names))
        invariant Contents() == old(Contents())
      {
        if !ps[i].Dict? {
          BuildIndexFailsAt(ps, i, py);
          return Failure("AttributeError");
        }
        pos, names := IndexOne(pos, names, ps[i].entries, py);
        assert ps[..i + 1][..i] == ps[..i];
        i := i + 1;
      }
      assert ps[..|ps|] == ps;
      var ix := Index(pos, names);
      r := PatchPages(ix, ps, py);
    }

    /** One iteration of the indexing loop. */
    static method IndexOne(pos0: map<(int, int), Object>, names0: map<string, Object>, p: Object, py: PyRuntime)
      returns (pos: map<(int, int), Object>, names: map<string, Object>)
      ensures Index(pos, names) == IndexPatch(Index(pos0, names0), p, py)
    {
      pos, names := pos0, names0;
      var v := PatchIdValue(p);
      if PyTruthy(v) {
        var fid := PyStr(v, py);
        var key := PositionalKey(fid);
        if key.Some? {
          pos := pos[key.value := p];
        } else {
          names := names[fid := p];
        }
        var second := FieldNameKey(p, fid, py);
        if second.Some? {
          names := names[second.value := p];
        }
      }
    }

    /** The page pass and what follows it, once the index is built. */
    method PatchPages(ix: Index, ps: seq<Value>, py: PyRuntime) returns (r: Result<nat>)
      modifies this
      ensures var st0 := Run(old(objects), old(objectCount), old(pages), old(acroForm), 0, {});
        var spec := Creates(AsWritten, ps, |ps|, Pages(ScriptFinder(ix), st0, |st0.pages|, py, WidgetPatcher(py)), py, WidgetMaker(py));
        && (r.Success? <==> spec.Success?)
        && (r.Success? ==> r.value == spec.value.count && Contents() == DocOf(NeedAppearances(spec.value)))
        && (r.Failure? ==> spec == Failure(r.error))
    {
      var count: nat := 0;
      var matched: set<string> := {};
      ghost var st0 := Run(objects, objectCount, pages, acroForm, 0, {});
      var pi := 0;
      while pi < |pages|
        invariant 0 <= pi <= |pages| == |st0.pages|
        invariant Run(objects, objectCount, pages, acroForm, count, matched) == Pages(ScriptFinder(ix), st0, pi, py, WidgetPatcher(py))
      {
        count, matched := PatchPage(ix, pi, count, matched, py);
        pi := pi + 1;
      }
      r := CreateMissing(ps, count, matched, py, WidgetMaker(py));
    }

    /** One page: each /Annots entry in turn, then /Annots rewritten when entries were dropped. */
    method PatchPage(ix: Index, pi: nat, count0: nat, matched0: set<string>, py: PyRuntime) returns (count: nat, matched: set<string>)
      requires pi < |pages|
      modifies this
      ensures var e := PageStep(ScriptFinder(ix), Run(old(objects), old(objectCount), old(pages), old(acroForm), count0, matched0), pi, py, WidgetPatcher(py));
        objects == e.objects && pages == e.pages && count == e.count && matched == e.matched
      ensures objectCount == old(objectCount) && acroForm == old(acroForm)
    {
      count, matched := count0, matched0;
      ghost var before := Run(objects, objectCount, pages, acroForm, count, matched);
      if pages[pi].Some? {
        var annots := pages[pi].value;
        var kept: seq<Ref> := [];
        var idx := 0;
        while idx < |annots|
          invariant 0 <= idx <= |annots|
          invariant (Run(objects, objectCount, pages, acroForm, count, matched), kept) == Entries(ScriptFinder(ix), pi + 1, annots, idx, before, py, WidgetPatcher(py))
        {
          count, matched, kept := PatchEntry(ix, pi + 1, idx, annots[idx], count, matched, kept, py);
          idx := idx + 1;
        }
        if |kept| != |annots| {
          pages := pages[pi := Some(kept)];
        }
      }
    }

    /** One /Annots entry. */
    method PatchEntry(ix: Index, pageNum: nat, idx: nat, ref: Ref, count0: nat, matched0: set<string>, kept0: seq<Ref>, py: PyRuntime)
      returns (count: nat, matched: set<string>, kept: seq<Ref>)
      modifies this
      ensures var e := EntryStep(ScriptFinder(ix), pageNum, idx, ref, Run(old(objects), old(objectCount), old(pages), old(acroForm), count0, matched0), kept0, py, WidgetPatcher(py));
        objects == e.0.objects && count == e.0.count && matched == e.0.matched && kept == e.1
      ensures objectCount == old(objectCount) && pages == old(pages) && acroForm == old(acroForm)
    {
      count, matched, kept := count0, matched0, kept0;
      var pm := FindPatchAsWritten(ix, pageNum, idx, ref, objects);
      if pm.Some? && Hides(pm.value) {
        return;
      }
      if ref in objects && pm.Some? && pm.value != map[] {
        count := count + 1;
        matched := matched + {PatchId(pm.value, py)};
        PatchWidget(ref, pm.value, py);
      }
      kept := kept + [ref];
    }

    /** The create pass, then /NeedAppearances. */
    method CreateMissing(ps: seq<Value>, count0: nat, matched: set<string>, py: PyRuntime, mk: Maker) returns (r: Result<nat>)
      modifies this
      ensures var spec := Creates(AsWritten, ps, |ps|, Run(old(objects), old(objectCount), old(pages), old(acroForm), count0, matched), py, mk);
        && (r.Success? <==> spec.Success?)
        && (r.Success? ==> r.value == spec.value.count && Contents() == DocOf(NeedAppearances(spec.value)))
        && (r.Failure? ==> spec == Failure(r.error))
    {
      r := CreateLoop(ps, State(count0, matched), count0, matched, py, mk);
      if r.Success? {
        SetNeedAppearances(r.value, matched);
      }
    }

    /** The create loop itself: the first patch that raises ends it. */
    method CreateLoop(ps: seq<Value>, ghost st1: Run, count0: nat, matched: set<string>, py: PyRuntime, mk: Maker) returns (r: Result<nat>)
      requires st1 == State(count0, matched)
      modifies this
      ensures r.Success? ==> Creates(AsWritten, ps, |ps|, st1, py, mk) == Success(State(r.value, matched))
      ensures r.Failure? ==> Creates(AsWritten, ps, |ps|, st1, py, mk) == Failure(r.error)
    {
      var count := count0;
      var i := 0;
      while i < |ps|
        invariant 0 <= i <= |ps|
        invariant Creates(AsWritten, ps, i, st1, py, mk) == Success(State(count, matched))
      {
        var step := CreateLoopStep(ps, i, st1, count, matched, py, mk);
        if step.Failure? {
          return Failure(step.error);
        }
        count := step.value;
        i := i + 1;
      }
      r := Success(count);
    }

    /** Patch `i` of the create loop, after the first `i` succeeded. */
    method CreateLoopStep(ps: seq<Value>, i: nat, ghost st1: Run, count: nat, matched: set<string>, py: PyRuntime, mk: Maker) returns (step: Result<nat>)
      requires i < |ps| && Creates(AsWritten, ps, i, st1, py, mk) == Success(State(count, matched))
      modifies this
      ensures step.Failure? ==> Creates(AsWritten, ps, i + 1, st1, py, mk) == Failure(step.error)
      ensures step.Failure? ==> Creates(AsWritten, ps, |ps|, st1, py, mk) == Failure(step.error)
      ensures step.Success? ==> Creates(AsWritten, ps, i + 1, st1, py, mk) == Success(State(step.value, matched))
    {
      ghost var s := State(count, matched);
      CreatesNext(AsWritten, ps, i, st1, py, mk, s);
      step := CreateOne(ps[i], count, matched, py, mk);
      if step.Failure? {
        FoldStaysFailed((p, s) => CreateStep(AsWritten, p, s, py, mk), ps, i + 1, |ps|, st1);
      }
    }

    /** `set_need_appearances_writer(True)`. */
    method SetNeedAppearances(count: nat, matched: set<string>)
      modifies this
      ensures var e := NeedAppearances(Run(old(objects), old(objectCount), old(pages), old(acroForm), count, matched));
        objects == e.objects && objectCount == e.objectCount && pages == e.pages && acroForm == e.acroForm
    {
      if acroForm.Some? {
        acroForm := Some(acroForm.value.(needAppearances := true));
      } else {
        objectCount := objectCount + 1;
        acroForm := Some(AcroForm([], true));
      }
    }

    /** Appends widget `w` as a new object to page `page` and, when the document has a form,
        to /Fields; the new form dictionary the script builds otherwise is refused, so nothing
        more changes. */
    method AppendWidget(page: nat, w: Dict, count: nat, matched: set<string>)
      requires page < |pages| && "/Parent" !in w
      modifies this
      ensures var e := AddWidgetAsWritten(Run(old(objects), old(objectCount), old(pages), old(acroForm), count, matched), page, w);
        objects == e.objects && objectCount == e.objectCount && pages == e.pages && acroForm == e.acroForm
    {
      objectCount := objectCount + 1;
      var ref := objectCount;
      objects := objects[ref := w];
      pages := pages[page := Some(pages[page].GetOr([]) + [ref])];
      if acroForm.Some? {
        acroForm := Some(acroForm.value.(fields := acroForm.value.fields + [ref]));
      }
    }

    /** One patch of the create pass; the new count on success. */
    method CreateOne(p: Value, count0: nat, matched: set<string>, py: PyRuntime, mk: Maker) returns (r: Result<nat>)
      modifies this
      ensures var spec := CreateStep(AsWritten, p, Run(old(objects), old(objectCount), old(pages), old(acroForm), count0, matched), py, mk);
        && (r.Success? <==> spec.Success?)
        && (r.Failure? ==> r == Failure(spec.error))
        && (r.Success? ==>
              && objects == spec.value.objects && objectCount == spec.value.objectCount
              && pages == spec.value.pages && acroForm == spec.value.acroForm
              && r.value == spec.value.count && matched == spec.value.matched)
    {
      ghost var st := Run(objects, objectCount, pages, acroForm, count0, matched);
      if !p.Dict? {
        return Failure("AttributeError");
      }
      var d := p.entries;
      var fid := PatchId(d, py);
      var rect := PyGet(d, "rect");
      if !CreateQualifiesAsWritten(d, fid, matched) || !rect.List? || |rect.items| < 4 {
        return Success(count0);
      }
      var nv := NameValue(d, fid);
      assert CreateStep(AsWritten, p, st, py, mk) == CreateNamed(AsWritten, d, nv, st, py, mk);
      if !nv.Str? {
        return Failure("AttributeError");
      }
      var name := PyStrip(nv.s);
      var pv := PageValue(d);
      var pn := PyIntOf(pv);
      if pn.None? {
        return Failure(PyIntError(pv));
      }
      assert CreateStep(AsWritten, p, st, py, mk) == CreateOnPage(AsWritten, d, name, pn.value, st, py, mk);
      r := PlaceWidget(d, name, pn.value, count0, matched, py, mk);
    }

    /** The page check, the rect conversion and the new widget. */
    method PlaceWidget(d: Object, name: string, pn: int, count0: nat, matched: set<string>, py: PyRuntime, mk: Maker) returns (r: Result<nat>)
      modifies this
      ensures var spec := CreateOnPage(AsWritten, d, name, pn, Run(old(objects), old(objectCount), old(pages), old(acroForm), count0, matched), py, mk);
        && r.Success? && spec.Success?
        && objects == spec.value.objects && objectCount == spec.value.objectCount
        && pages == spec.value.pages && acroForm == spec.value.acroForm
        && r.value == spec.value.count && matched == spec.value.matched
    {
      if pn < 1 || pn > |pages| {
        return Success(count0);
      }
      var ra := RectArray(PyGet(d, "rect"), py);
      if ra.None? {
        return Success(count0);
      }
      var widget := mk(d, name, ra.value);
      var registered := acroForm.Some?;
      AppendWidget(pn - 1, widget, count0, matched);
      r := Success(if registered then count0 + 1 else count0);
    }
  }
}
