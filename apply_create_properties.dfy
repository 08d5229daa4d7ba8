/** What the create pass and the whole of `apply_patches` guarantee, stated on the functions of
    `AcroFormApply`. */
module AcroFormApplyCreateProperties {
  import opened Wrappers
  import opened Text
  import opened Values
  import opened Pdf
  import opened AcroFormPatchIndex
  import opened AcroFormPatchWidget
  import opened AcroFormApply
  import opened AcroFormApplyProperties

  // ---------------------------------------------------------------- one new widget

  /** The /Fields array of a run; none when the document has no form. */
  function FieldsOf(st: Run): seq<Ref> {
    if st.acroForm.Some? then st.acroForm.value.fields else []
  }

  /** A new widget takes the next object number, which no existing object holds, and goes last
      on its page's /Annots; nothing else on the pages or in the table moves, and the document
      stays well formed. Where it is registered (always in the corrected program, and as written
      when the document has a form) it is also last in /Fields and counted; as written, a
      document without a form gets no /Fields and no count. */
  lemma RegisterEffect(v: Version, st: Run, page: nat, w: Dict)
    requires page < |st.pages| && "/Parent" !in w && WellFormed(DocOf(st))
    ensures var r := Register(v, st, page, w);
      var ref := st.objectCount + 1;
      && ref !in st.objects && ref in r.objects && r.objects[ref] == w
      && (forall q :: q in st.objects ==> q in r.objects && r.objects[q] == st.objects[q])
      && r.objects.Keys == st.objects.Keys + {ref} && r.objectCount == ref
      && |r.pages| == |st.pages|
      && r.pages[page].Some? && r.pages[page].value == st.pages[page].GetOr([]) + [ref]
      && (forall k :: 0 <= k < |st.pages| && k != page ==> r.pages[k] == st.pages[k])
      && r.matched == st.matched
      && (v == Intended || st.acroForm.Some? ==>
            r.acroForm.Some? && FieldsOf(r) == FieldsOf(st) + [ref] && r.count == st.count + 1)
      && (v == AsWritten && st.acroForm.None? ==> r.acroForm.None? && r.count == st.count)
      && WellFormed(DocOf(r))
  {
  }

  /** With a form dictionary present the two registrations agree. */
  lemma AddWidgetAsWrittenWithForm(st: Run, page: nat, w: Dict)
    requires page < |st.pages| && "/Parent" !in w && st.acroForm.Some?
    ensures AddWidgetAsWritten(st, page, w) == AddWidget(st, page, w)
  {
  }

  // ---------------------------------------------------------------- one patch

  /** The patch gets past the qualification and rect checks of the create loop. */
  predicate Proceeds(v: Version, d: Object, st: Run, py: PyRuntime) {
    var rect := PyGet(d, "rect");
    Qualifies(v, d, PatchId(d, py), st.matched) && rect.List? && |rect.items| >= 4
  }

  /** A patch that matched an entry of the page pass, and a patch that neither asks for creation
      nor carries a `new-` identifier, create nothing; in the corrected program neither does a
      hidden patch. */
  lemma CreateStepSkips(v: Version, p: Value, st: Run, py: PyRuntime, mk: Maker)
    requires p.Dict?
    requires (v == Intended && Hidden(p.entries)) || PatchId(p.entries, py) in st.matched
      || (!AsksCreate(p.entries) && !StartsWith(PatchId(p.entries, py), "new-"))
    ensures CreateStep(v, p, st, py, mk) == Success(st)
  {
  }

  /** The create loop raises exactly for an entry that is not a dictionary (AttributeError), and
      for a patch that proceeds but has a name that is not a string (AttributeError on `strip`)
      or a page `int()` rejects (TypeError for null, a list or an object, ValueError for a string
      that is no integer); everything else the loop catches or skips. */
  lemma CreateStepFailure(v: Version, p: Value, st: Run, py: PyRuntime, mk: Maker)
    ensures !p.Dict? ==> CreateStep(v, p, st, py, mk) == Failure("AttributeError")
    ensures p.Dict? ==>
      var d := p.entries;
      var nv := NameValue(d, PatchId(d, py));
      && (CreateStep(v, p, st, py, mk).Failure? <==> Proceeds(v, d, st, py) && (!nv.Str? || PyIntOf(PageValue(d)).None?))
      && (CreateStep(v, p, st, py, mk).Failure? ==>
            CreateStep(v, p, st, py, mk).error == if !nv.Str? then "AttributeError" else PyIntError(PageValue(d)))
  {
    if p.Dict? {
      var d := p.entries;
      var nv := NameValue(d, PatchId(d, py));
      if Proceeds(v, d, st, py) {
        assert CreateStep(v, p, st, py, mk) == CreateNamed(v, d, nv, st, py, mk);
      }
    }
  }

  /** A successful step either changes nothing or adds one widget. */
  ghost predicate AddsOne(v: Version, st: Run, r: Run) {
    exists page: nat, w: Dict :: page < |st.pages| && "/Parent" !in w && r == Register(v, st, page, w)
  }

  lemma CreateOnPageResult(v: Version, d: Object, name: string, pn: int, st: Run, py: PyRuntime, mk: Maker)
    ensures CreateOnPage(v, d, name, pn, st, py, mk).Success?
    ensures CreateOnPage(v, d, name, pn, st, py, mk).value == st || AddsOne(v, st, CreateOnPage(v, d, name, pn, st, py, mk).value)
  {
    if 1 <= pn <= |st.pages| && RectArray(PyGet(d, "rect"), py).Some? {
      var w := mk(d, name, RectArray(PyGet(d, "rect"), py).value);
      assert CreateOnPage(v, d, name, pn, st, py, mk).value == Register(v, st, pn - 1, w);
    }
  }

  lemma CreateStepResult(v: Version, p: Value, st: Run, py: PyRuntime, mk: Maker)
    requires CreateStep(v, p, st, py, mk).Success?
    ensures CreateStep(v, p, st, py, mk).value == st || AddsOne(v, st, CreateStep(v, p, st, py, mk).value)
  {
    var d := p.entries;
    if Proceeds(v, d, st, py) {
      var nv := NameValue(d, PatchId(d, py));
      assert CreateStep(v, p, st, py, mk) == CreateNamed(v, d, nv, st, py, mk);
      var pn := PyIntOf(PageValue(d)).value;
      assert CreateStep(v, p, st, py, mk) == CreateOnPage(v, d, PyStrip(nv.s), pn, st, py, mk);
      CreateOnPageResult(v, d, PyStrip(nv.s), pn, st, py, mk);
    }
  }

  /** A patch that proceeds, has a string name and a page in range, and whose rect converts, is
      created on that page under its stripped name. */
  lemma CreateStepCreates(v: Version, p: Value, st: Run, py: PyRuntime, mk: Maker)
    requires p.Dict? && Proceeds(v, p.entries, st, py)
    requires NameValue(p.entries, PatchId(p.entries, py)).Str?
    requires PyIntOf(PageValue(p.entries)).Some? && 1 <= PyIntOf(PageValue(p.entries)).value <= |st.pages|
    requires RectArray(PyGet(p.entries, "rect"), py).Some?
    ensures var d := p.entries;
      var name := PyStrip(NameValue(d, PatchId(d, py)).s);
      var page := PyIntOf(PageValue(d)).value - 1;
      CreateStep(v, p, st, py, mk) == Success(Register(v, st, page, mk(d, name, RectArray(PyGet(d, "rect"), py).value)))
  {
    var d := p.entries;
    var nv := NameValue(d, PatchId(d, py));
    assert CreateStep(v, p, st, py, mk) == CreateNamed(v, d, nv, st, py, mk);
    assert CreateStep(v, p, st, py, mk) == CreateOnPage(v, d, PyStrip(nv.s), PyIntOf(PageValue(d)).value, st, py, mk);
  }

  // ---------------------------------------------------------------- the create pass

  /** What the create pass keeps from `st` to `r`: no object is lost, the matched set and the
      page count stay, and /Fields only grows at its end. The count grows by the widgets added
      to /Fields. Where widgets are registered, that is every new object; as written, a
      document without a form keeps none and counts none. */
  ghost predicate Grows(v: Version, st: Run, r: Run) {
    && st.objects.Keys <= r.objects.Keys && r.objectCount >= st.objectCount
    && r.matched == st.matched && |r.pages| == |st.pages|
    && FieldsOf(st) <= FieldsOf(r)
    && r.count - st.count == |FieldsOf(r)| - |FieldsOf(st)|
    && (st.acroForm.Some? ==> r.acroForm.Some?)
    && (v == Intended || st.acroForm.Some? ==> r.count - st.count == r.objectCount - st.objectCount)
    && (v == AsWritten && st.acroForm.None? ==> r.acroForm.None?)
  }

  /** One successful step grows the run and keeps it well formed. */
  lemma CreateStepGrows(v: Version, p: Value, s: Run, py: PyRuntime, mk: Maker)
    requires WellFormed(DocOf(s)) && CreateStep(v, p, s, py, mk).Success?
    ensures Grows(v, s, CreateStep(v, p, s, py, mk).value) && WellFormed(DocOf(CreateStep(v, p, s, py, mk).value))
  {
    CreateStepResult(v, p, s, py, mk);
    var r := CreateStep(v, p, s, py, mk).value;
    if r != s {
      var page: nat, w: Dict :| page < |s.pages| && "/Parent" !in w && r == Register(v, s, page, w);
      RegisterEffect(v, s, page, w);
    }
  }

  /** One more patch is one more step, unless the pass has already failed. */
  lemma CreatesUnfold(v: Version, ps: seq<Value>, k: nat, st: Run, py: PyRuntime, mk: Maker)
    requires k < |ps|
    ensures Creates(v, ps, k, st, py, mk).Failure? ==> Creates(v, ps, k + 1, st, py, mk) == Creates(v, ps, k, st, py, mk)
    ensures Creates(v, ps, k, st, py, mk).Success? ==> Creates(v, ps, k + 1, st, py, mk) == CreateStep(v, ps[k], Creates(v, ps, k, st, py, mk).value, py, mk)
  {
  }

  /** Over the whole create pass the run grows and stays well formed. */
  lemma {:induction false} CreatesCountWidgets(v: Version, ps: seq<Value>, i: nat, st: Run, py: PyRuntime, mk: Maker)
    requires i <= |ps| && WellFormed(DocOf(st))
    ensures Creates(v, ps, i, st, py, mk).Success? ==>
      Grows(v, st, Creates(v, ps, i, st, py, mk).value) && WellFormed(DocOf(Creates(v, ps, i, st, py, mk).value))
  {
    if i > 0 {
      var k := i - 1;
      CreatesCountWidgets(v, ps, k, st, py, mk);
      CreatesUnfold(v, ps, k, st, py, mk);
      if Creates(v, ps, k, st, py, mk).Success? && Creates(v, ps, k + 1, st, py, mk).Success? {
        CreateStepGrows(v, ps[k], Creates(v, ps, k, st, py, mk).value, py, mk);
      }
    }
  }

  /** Once a step raises, the pass ends with that error. */
  lemma CreatesFailsAt(v: Version, ps: seq<Value>, k: nat, st: Run, py: PyRuntime, mk: Maker)
    requires k < |ps| && Creates(v, ps, k, st, py, mk).Success? && CreateStep(v, ps[k], Creates(v, ps, k, st, py, mk).value, py, mk).Failure?
    ensures Creates(v, ps, |ps|, st, py, mk) == CreateStep(v, ps[k], Creates(v, ps, k, st, py, mk).value, py, mk)
  {
    CreatesUnfold(v, ps, k, st, py, mk);
    FoldStaysFailed((p, s) => CreateStep(v, p, s, py, mk), ps, k + 1, |ps|, st);
  }

  // ---------------------------------------------------------------- the whole pass

  /** The page pass keeps the document well formed: it adds no object and keeps the object count. */
  lemma PagesKeepWellFormed(find: Finder, st: Run, i: nat, py: PyRuntime, pw: Patcher)
    requires i <= |st.pages| && WellFormed(DocOf(st))
    ensures WellFormed(DocOf(Pages(find, st, i, py, pw)))
  {
    var r := Pages(find, st, i, py, pw);
    assert r.objects.Keys == st.objects.Keys;
    forall q | q in r.objects
      ensures 1 <= q <= r.objectCount
    {
      assert q in st.objects;
    }
  }

  /** A non-dictionary anywhere in the patch list ends the script with AttributeError before the
      PDF is touched. */
  lemma ApplyFailsOnNonDictPatch(v: Version, doc: Doc, patches: Value, py: PyRuntime)
    requires LinksOk(doc.objects)
    requires exists k :: 0 <= k < |PatchList(patches)| && !PatchList(patches)[k].Dict?
    ensures ApplySpec(v, doc, patches, py) == Failure("AttributeError")
  {
    var ps := PatchList(patches);
    BuildIndexFailsOnNonDict(ps, py);
    BuildIndexError(ps, py);
  }

  /** Without patches (or with a patch value that is not a list) only /NeedAppearances is set. */
  lemma ApplyNoPatches(v: Version, doc: Doc, patches: Value, py: PyRuntime)
    requires LinksOk(doc.objects) && PatchList(patches) == []
    ensures ApplySpec(v, doc, patches, py) == Success(NeedAppearances(Start(doc)))
  {
    EmptyIndexPages(v, Start(doc), |doc.pages|, py, WidgetPatcher(py));
  }

  /** A successful run leaves a well-formed document with a form dictionary whose
      /NeedAppearances is true, and keeps every object of the input and the number of pages. */
  lemma ApplyKeepsWellFormed(v: Version, doc: Doc, patches: Value, py: PyRuntime)
    requires WellFormed(doc)
    ensures var r := ApplySpec(v, doc, patches, py);
      r.Success? ==>
        && WellFormed(DocOf(r.value))
        && r.value.acroForm.Some? && r.value.acroForm.value.needAppearances
        && doc.objects.Keys <= r.value.objects.Keys
        && |r.value.pages| == |doc.pages|
  {
    var ps := PatchList(patches);
    if BuildIndex(ps, py).Success? {
      var ix := BuildIndex(ps, py).value;
      PagesKeepWellFormed(FinderFor(v, ix), Start(doc), |doc.pages|, py, WidgetPatcher(py));
      CreatesCountWidgets(v, ps, |ps|, PagePass(v, doc, ix, py, WidgetPatcher(py)), py, WidgetMaker(py));
    }
  }

  /** The applied count is the count of the page pass plus the widgets the create pass added to
      /Fields, which only grows at its end. As written, a document without /AcroForm gets no
      created widget counted and ends with an empty /Fields. */
  lemma ApplyCounts(v: Version, doc: Doc, patches: Value, py: PyRuntime)
    requires WellFormed(doc)
    ensures var ps := PatchList(patches);
      var r := ApplySpec(v, doc, patches, py);
      r.Success? ==>
        && BuildIndex(ps, py).Success?
        && var mid := PagePass(v, doc, BuildIndex(ps, py).value, py, WidgetPatcher(py));
        && FieldsOf(Start(doc)) <= FieldsOf(r.value)
        && r.value.count == mid.count + |FieldsOf(r.value)| - |FieldsOf(Start(doc))|
        && (v == AsWritten && doc.acroForm.None? ==> r.value.count == mid.count && FieldsOf(r.value) == [])
  {
    var ps := PatchList(patches);
    if BuildIndex(ps, py).Success? {
      var ix := BuildIndex(ps, py).value;
      var mid := PagePass(v, doc, ix, py, WidgetPatcher(py));
      PagesKeepWellFormed(FinderFor(v, ix), Start(doc), |doc.pages|, py, WidgetPatcher(py));
      CreatesCountWidgets(v, ps, |ps|, mid, py, WidgetMaker(py));
    }
  }

  // ---------------------------------------------------------------- where the two programs part

  /** The tables built from a one-patch list hold only that patch. */
  lemma SinglePatchIndex(p: Object, py: PyRuntime)
    ensures BuildIndex([Dict(p)], py) == Success(IndexPatch(Index(map[], map[]), p, py))
    ensures var ix := IndexPatch(Index(map[], map[]), p, py);
      && (forall k :: k in ix.pos ==> ix.pos[k] == p)
      && (forall n :: n in ix.names ==> ix.names[n] == p)
  {
    assert [Dict(p)][..0] == [];
  }

  /** So both lookups hand out that patch or nothing. */
  lemma SinglePatchFinder(v: Version, p: Object, py: PyRuntime)
    ensures var find := FinderFor(v, IndexPatch(Index(map[], map[]), p, py));
      forall pageNum: nat, idx: nat, ref: Ref, o: LinkedObjects ::
        find(pageNum, idx, ref, o).None? || find(pageNum, idx, ref, o) == Some(p)
  {
    SinglePatchIndex(p, py);
  }

  /** The one-patch list, run on any document: the page pass with the patch's tables, then its
      create step, then /NeedAppearances. */
  lemma SinglePatchRun(v: Version, doc: Doc, p: Object, py: PyRuntime, pw: Patcher, mk: Maker, st: Run)
    requires WellFormed(doc)
    requires CreateStep(v, Dict(p), PagePass(v, doc, IndexPatch(Index(map[], map[]), p, py), py, pw), py, mk) == Success(st)
    ensures ApplyWith(v, doc, List([Dict(p)]), py, pw, mk) == Success(NeedAppearances(st))
  {
    SinglePatchIndex(p, py);
    var mid := PagePass(v, doc, IndexPatch(Index(map[], map[]), p, py), py, pw);
    CreatesNext(v, [Dict(p)], 0, mid, py, mk, mid);
  }

  /** With a hiding patch as the only one, the page pass applies and records nothing. */
  lemma HiddenPatchPagePass(v: Version, doc: Doc, p: Object, py: PyRuntime, pw: Patcher)
    requires WellFormed(doc) && Hides(p)
    ensures var mid := PagePass(v, doc, IndexPatch(Index(map[], map[]), p, py), py, pw);
      && mid.objects == doc.objects && mid.objectCount == doc.objectCount && mid.acroForm == doc.acroForm
      && mid.count == 0 && mid.matched == {} && |mid.pages| == |doc.pages| && WellFormed(DocOf(mid))
  {
    var find := FinderFor(v, IndexPatch(Index(map[], map[]), p, py));
    SinglePatchFinder(v, p, py);
    assert NeverApplies(find);
    PagesNeverApply(find, Start(doc), |doc.pages|, py, pw);
    PagesKeepWellFormed(find, Start(doc), |doc.pages|, py, pw);
  }

  /** A patch that hides the field and asks for a `new-` widget, as the only patch: the page pass
      records no match for it, so as written the create pass still makes the widget, a new
      object last on its page. Stated for any patcher and widget maker, so for `ApplySpec`'s
      `WidgetPatcher` and `WidgetMaker` too. */
  lemma HiddenPatchCreatedAsWritten(doc: Doc, p: Object, py: PyRuntime, pw: Patcher, mk: Maker)
    requires WellFormed(doc) && Hidden(p)
    requires CreateQualifiesAsWritten(p, PatchId(p, py), {})
    requires PyGet(p, "rect").List? && |PyGet(p, "rect").items| >= 4 && RectArray(PyGet(p, "rect"), py).Some?
    requires NameValue(p, PatchId(p, py)).Str?
    requires PyIntOf(PageValue(p)).Some? && 1 <= PyIntOf(PageValue(p)).value <= |doc.pages|
    ensures var r := ApplyWith(AsWritten, doc, List([Dict(p)]), py, pw, mk);
      var ref := doc.objectCount + 1;
      var page := PyIntOf(PageValue(p)).value - 1;
      && r.Success? && ref !in doc.objects && ref in r.value.objects && |r.value.pages| == |doc.pages|
      && r.value.objects[ref] == mk(p, PyStrip(NameValue(p, PatchId(p, py)).s), RectArray(PyGet(p, "rect"), py).value)
      && r.value.pages[page].Some? && |r.value.pages[page].value| > 0
      && r.value.pages[page].value[|r.value.pages[page].value| - 1] == ref
  {
    assert p != map[] by {
      assert PyGet(map[], "hidden") != Bool(true);
    }
    var mid := PagePass(AsWritten, doc, IndexPatch(Index(map[], map[]), p, py), py, pw);
    HiddenPatchPagePass(AsWritten, doc, p, py, pw);
    var page := PyIntOf(PageValue(p)).value - 1;
    var w := mk(p, PyStrip(NameValue(p, PatchId(p, py)).s), RectArray(PyGet(p, "rect"), py).value);
    HiddenStep(mid, p, py, mk);
    var st := Register(AsWritten, mid, page, w);
    RegisteredLast(AsWritten, mid, page, w);
    SinglePatchRun(AsWritten, doc, p, py, pw, mk, st);
    LastWidgetKept(doc, mid, st, ApplyWith(AsWritten, doc, List([Dict(p)]), py, pw, mk).value, page, w);
  }

  /** Glue for the lemma above: what holds of the run after the create step holds of the
      written document. */
  lemma LastWidgetKept(doc: Doc, mid: Run, st: Run, r: Run, page: nat, w: Dict)
    requires r == NeedAppearances(st)
    requires mid.objects == doc.objects && mid.objectCount == doc.objectCount && |mid.pages| == |doc.pages|
    requires var ref := mid.objectCount + 1;
      && ref !in mid.objects && ref in st.objects && st.objects[ref] == w && |st.pages| == |mid.pages|
      && page < |st.pages| && st.pages[page].Some? && |st.pages[page].value| > 0
      && st.pages[page].value[|st.pages[page].value| - 1] == ref
    ensures var ref := doc.objectCount + 1;
      && ref !in doc.objects && ref in r.objects && |r.pages| == |doc.pages|
      && r.objects[ref] == w
      && r.pages[page].Some? && |r.pages[page].value| > 0
      && r.pages[page].value[|r.pages[page].value| - 1] == ref
  {
  }

  /** The part of `RegisterEffect` the exhibits use: the new object is the widget, last on its page. */
  lemma RegisteredLast(v: Version, st: Run, page: nat, w: Dict)
    requires page < |st.pages| && "/Parent" !in w && WellFormed(DocOf(st))
    ensures var r := Register(v, st, page, w);
      var ref := st.objectCount + 1;
      && ref !in st.objects && ref in r.objects && r.objects[ref] == w && |r.pages| == |st.pages|
      && r.pages[page].Some? && |r.pages[page].value| > 0 && r.pages[page].value[|r.pages[page].value| - 1] == ref
  {
    RegisterEffect(v, st, page, w);
  }

  /** The as-written create step of the lemma above, on a run that matched nothing: the widget
      is made and registered on its page. */
  lemma HiddenStep(st: Run, p: Object, py: PyRuntime, mk: Maker)
    requires WellFormed(DocOf(st)) && st.matched == {}
    requires CreateQualifiesAsWritten(p, PatchId(p, py), {})
    requires PyGet(p, "rect").List? && |PyGet(p, "rect").items| >= 4 && RectArray(PyGet(p, "rect"), py).Some?
    requires NameValue(p, PatchId(p, py)).Str?
    requires PyIntOf(PageValue(p)).Some? && 1 <= PyIntOf(PageValue(p)).value <= |st.pages|
    ensures var page := PyIntOf(PageValue(p)).value - 1;
      var w := mk(p, PyStrip(NameValue(p, PatchId(p, py)).s), RectArray(PyGet(p, "rect"), py).value);
      CreateStep(AsWritten, Dict(p), st, py, mk) == Success(Register(AsWritten, st, page, w))
  {
    assert Proceeds(AsWritten, p, st, py);
    CreateStepCreates(AsWritten, Dict(p), st, py, mk);
  }

  /** The same patch in the corrected program: nothing is created and nothing applied. */
  lemma HiddenPatchSkippedWhenCorrected(doc: Doc, p: Object, py: PyRuntime, pw: Patcher, mk: Maker)
    requires WellFormed(doc) && Hidden(p)
    ensures var r := ApplyWith(Intended, doc, List([Dict(p)]), py, pw, mk);
      r.Success? && r.value.objects == doc.objects && r.value.count == 0 && FieldsOf(r.value) == FieldsOf(Start(doc))
  {
    assert p != map[] by {
      assert PyGet(map[], "hidden") != Bool(true);
    }
    var mid := PagePass(Intended, doc, IndexPatch(Index(map[], map[]), p, py), py, pw);
    HiddenPatchPagePass(Intended, doc, p, py, pw);
    CreateStepSkips(Intended, Dict(p), mid, py, mk);
    SinglePatchRun(Intended, doc, p, py, pw, mk, mid);
  }

  /** A document without /AcroForm and without annotations, and one patch that creates a
      widget on a page: both programs put the widget last on that page; as written it is in no
      /Fields and the count is 0, corrected it is the only entry of /Fields and the count is 1. */
  lemma FormlessWidgetOrphanedAsWritten(doc: Doc, p: Object, py: PyRuntime)
    requires WellFormed(doc) && doc.acroForm.None? && NoAnnots(doc.pages)
    requires CreateQualifies(p, PatchId(p, py), {})
    requires PyGet(p, "rect").List? && |PyGet(p, "rect").items| >= 4 && RectArray(PyGet(p, "rect"), py).Some?
    requires NameValue(p, PatchId(p, py)).Str?
    requires PyIntOf(PageValue(p)).Some? && 1 <= PyIntOf(PageValue(p)).value <= |doc.pages|
    ensures var ref := doc.objectCount + 1;
      var page := PyIntOf(PageValue(p)).value - 1;
      var a := ApplySpec(AsWritten, doc, List([Dict(p)]), py);
      var c := ApplySpec(Intended, doc, List([Dict(p)]), py);
      && a.Success? && c.Success?
      && a.value.pages == c.value.pages == doc.pages[page := Some([ref])]
      && a.value.count == 0 && FieldsOf(a.value) == []
      && c.value.count == 1 && FieldsOf(c.value) == [ref]
  {
    FormlessRun(AsWritten, doc, p, py, WidgetPatcher(py), WidgetMaker(py));
    FormlessRun(Intended, doc, p, py, WidgetPatcher(py), WidgetMaker(py));
  }

  /** The lemma above, one program at a time, for any patcher and widget maker. */
  lemma FormlessRun(v: Version, doc: Doc, p: Object, py: PyRuntime, pw: Patcher, mk: Maker)
    requires WellFormed(doc) && doc.acroForm.None? && NoAnnots(doc.pages)
    requires CreateQualifies(p, PatchId(p, py), {})
    requires PyGet(p, "rect").List? && |PyGet(p, "rect").items| >= 4 && RectArray(PyGet(p, "rect"), py).Some?
    requires NameValue(p, PatchId(p, py)).Str?
    requires PyIntOf(PageValue(p)).Some? && 1 <= PyIntOf(PageValue(p)).value <= |doc.pages|
    ensures var ref := doc.objectCount + 1;
      var page := PyIntOf(PageValue(p)).value - 1;
      var r := ApplyWith(v, doc, List([Dict(p)]), py, pw, mk);
      && r.Success? && r.value.pages == doc.pages[page := Some([ref])]
      && r.value.count == (if v == AsWritten then 0 else 1)
      && FieldsOf(r.value) == (if v == AsWritten then [] else [ref])
  {
    var page := PyIntOf(PageValue(p)).value - 1;
    var w := mk(p, PyStrip(NameValue(p, PatchId(p, py)).s), RectArray(PyGet(p, "rect"), py).value);
    var st0 := Start(doc);
    assert DocOf(st0) == doc;
    FormlessStep(v, st0, p, py, mk);
    RegisterOnFormless(v, st0, page, w);
    FormlessFinish(v, doc, p, py, pw, mk, st0, Register(v, st0, page, w), page);
  }

  /** The page pass and the closing step around the create step of the lemma above. */
  lemma FormlessFinish(v: Version, doc: Doc, p: Object, py: PyRuntime, pw: Patcher, mk: Maker, st0: Run, x: Run, page: nat)
    requires WellFormed(doc) && NoAnnots(doc.pages) && page < |doc.pages| && st0 == Start(doc)
    requires CreateStep(v, Dict(p), st0, py, mk) == Success(x)
    requires x.pages == st0.pages[page := Some([st0.objectCount + 1])]
    requires x.count == (if v == AsWritten then 0 else 1)
    requires FieldsOf(NeedAppearances(x)) == (if v == AsWritten then [] else [st0.objectCount + 1])
    ensures var r := ApplyWith(v, doc, List([Dict(p)]), py, pw, mk);
      && r.Success? && r.value.pages == doc.pages[page := Some([doc.objectCount + 1])]
      && r.value.count == (if v == AsWritten then 0 else 1)
      && FieldsOf(r.value) == (if v == AsWritten then [] else [doc.objectCount + 1])
  {
    var ix := IndexPatch(Index(map[], map[]), p, py);
    PagesWithoutAnnots(FinderFor(v, ix), st0, |doc.pages|, py, pw);
    SinglePatchRun(v, doc, p, py, pw, mk, x);
    FormlessKept(v, doc, st0, x, ApplyWith(v, doc, List([Dict(p)]), py, pw, mk).value, page);
  }

  /** The facts of the lemma above, carried from the create step to the finished run. */
  lemma FormlessKept(v: Version, doc: Doc, st0: Run, x: Run, r: Run, page: nat)
    requires page < |doc.pages| && r == NeedAppearances(x)
    requires st0.pages == doc.pages && st0.objectCount == doc.objectCount
    requires x.pages == st0.pages[page := Some([st0.objectCount + 1])]
    requires x.count == (if v == AsWritten then 0 else 1)
    requires FieldsOf(NeedAppearances(x)) == (if v == AsWritten then [] else [st0.objectCount + 1])
    ensures r.pages == doc.pages[page := Some([doc.objectCount + 1])]
    ensures r.count == (if v == AsWritten then 0 else 1)
    ensures FieldsOf(r) == (if v == AsWritten then [] else [doc.objectCount + 1])
  {
  }

  /** The create step of the lemma above: the widget is made and registered on its page. */
  lemma FormlessStep(v: Version, st: Run, p: Object, py: PyRuntime, mk: Maker)
    requires WellFormed(DocOf(st)) && st.matched == {}
    requires CreateQualifies(p, PatchId(p, py), {})
    requires PyGet(p, "rect").List? && |PyGet(p, "rect").items| >= 4 && RectArray(PyGet(p, "rect"), py).Some?
    requires NameValue(p, PatchId(p, py)).Str?
    requires PyIntOf(PageValue(p)).Some? && 1 <= PyIntOf(PageValue(p)).value <= |st.pages|
    ensures var page := PyIntOf(PageValue(p)).value - 1;
      var w := mk(p, PyStrip(NameValue(p, PatchId(p, py)).s), RectArray(PyGet(p, "rect"), py).value);
      CreateStep(v, Dict(p), st, py, mk) == Success(Register(v, st, page, w))
  {
    assert Proceeds(v, p, st, py);
    CreateStepCreates(v, Dict(p), st, py, mk);
  }

  /** A widget registered on a page without annotations of a document without a form. */
  lemma RegisterOnFormless(v: Version, st: Run, page: nat, w: Dict)
    requires page < |st.pages| && "/Parent" !in w && WellFormed(DocOf(st))
    requires st.acroForm.None? && st.count == 0 && st.pages[page].GetOr([]) == []
    ensures var r := Register(v, st, page, w);
      var ref := st.objectCount + 1;
      && r.pages == st.pages[page := Some([ref])]
      && FieldsOf(NeedAppearances(r)) == (if v == AsWritten then [] else [ref])
      && r.count == (if v == AsWritten then 0 else 1)
  {
    RegisterEffect(v, st, page, w);
    var r := Register(v, st, page, w);
    assert st.pages[page].GetOr([]) + [st.objectCount + 1] == [st.objectCount + 1];
    assert FieldsOf(st) + [st.objectCount + 1] == [st.objectCount + 1];
    assert |r.pages| == |st.pages[page := Some([st.objectCount + 1])]|;
  }

  /** The page pass of the lemma below: exactly one widget patched, and only when corrected. */
  lemma PaddedPagePass(v: Version, doc: Doc, ref: Ref, p: Object, py: PyRuntime, pw: Patcher)
    requires WellFormed(doc) && doc.pages == [Some([ref])] && ref in doc.objects && EntryName(ref, doc.objects).Some?
    requires var t := EntryName(ref, doc.objects).value; var id := PyStrip(t);
      && id != [] && t != id && PositionalKey(id).None? && PatchIdValue(p) == Str(id) && FieldNameKey(p, id, py) != Some(t)
    requires !Hidden(p)
    ensures PagePass(v, doc, IndexPatch(Index(map[], map[]), p, py), py, pw).count == if v == AsWritten then 0 else 1
  {
    var ix := IndexPatch(Index(map[], map[]), p, py);
    var find := FinderFor(v, ix);
    var st0 := Start(doc);
    PaddedNameMissedAsWritten(p, 1, 0, ref, doc.objects, py);
    NamedIdFindsItsEntry(Index(map[], map[]), p, 1, 0, ref, doc.objects, py);
    assert p != map[] by {
      assert PatchIdValue(map[]) == Str("");
    }
    assert find(1, 0, ref, st0.objects) == if v == AsWritten then None else Some(p);
    var e := EntryStep(find, 1, 0, ref, st0, [], py, pw);
    assert e.0.count == if v == AsWritten then 0 else 1;
    assert Entries(find, 1, [ref], 1, st0, py, pw) == e;
    assert Pages(find, st0, 1, py, pw).count == e.0.count;
  }

  /** A one-page document whose only annotation is named with surrounding spaces, and the patch
      carrying the stripped name the extractor reports: as written nothing is applied, corrected
      the widget is patched and counted. */
  lemma PaddedNameAppliedOnlyWhenCorrected(doc: Doc, ref: Ref, p: Object, py: PyRuntime)
    requires WellFormed(doc) && doc.pages == [Some([ref])] && ref in doc.objects && EntryName(ref, doc.objects).Some?
    requires var t := EntryName(ref, doc.objects).value; var id := PyStrip(t);
      && id != [] && t != id && PositionalKey(id).None? && PatchIdValue(p) == Str(id) && FieldNameKey(p, id, py) != Some(t)
    requires !Hidden(p) && !PyGet(p, "rect").List?
    ensures var a := ApplySpec(AsWritten, doc, List([Dict(p)]), py);
      a.Success? && a.value.count == 0
    ensures var c := ApplySpec(Intended, doc, List([Dict(p)]), py);
      c.Success? && c.value.count == 1
  {
    PaddedRun(AsWritten, doc, ref, p, py, WidgetPatcher(py), WidgetMaker(py));
    PaddedRun(Intended, doc, ref, p, py, WidgetPatcher(py), WidgetMaker(py));
  }

  /** The lemma above, one program at a time, for any patcher and widget maker. */
  lemma PaddedRun(v: Version, doc: Doc, ref: Ref, p: Object, py: PyRuntime, pw: Patcher, mk: Maker)
    requires WellFormed(doc) && doc.pages == [Some([ref])] && ref in doc.objects && EntryName(ref, doc.objects).Some?
    requires var t := EntryName(ref, doc.objects).value; var id := PyStrip(t);
      && id != [] && t != id && PositionalKey(id).None? && PatchIdValue(p) == Str(id) && FieldNameKey(p, id, py) != Some(t)
    requires !Hidden(p) && !PyGet(p, "rect").List?
    ensures var r := ApplyWith(v, doc, List([Dict(p)]), py, pw, mk);
      r.Success? && r.value.count == if v == AsWritten then 0 else 1
  {
    var mid := PagePass(v, doc, IndexPatch(Index(map[], map[]), p, py), py, pw);
    PaddedPagePass(v, doc, ref, p, py, pw);
    assert CreateStep(v, Dict(p), mid, py, mk) == Success(mid);
    SinglePatchRun(v, doc, p, py, pw, mk, mid);
  }
}
