/** What `apply_patches` guarantees, stated on the functions of `AcroFormApply`. */
module AcroFormApplyProperties {
  import opened Wrappers
  import opened Text
  import opened Values
  import opened Pdf
  import opened AcroFormPatchIndex
  import opened AcroFormPatchWidget
  import opened AcroFormApply
  import AcroFormExtract

  // ---------------------------------------------------------------- names survive patching

  /** The /T and /Parent entries of every dictionary in the table: all an entry's name depends on. */
  function Names(o: LinkedObjects): map<Ref, (Option<PdfObj>, Option<PdfObj>)> {
    map r | r in o :: (Get(o[r], "/T"), Get(o[r], "/Parent"))
  }

  lemma KeysNeverWritten()
    ensures "/T" !in WidgetKeys && "/T" !in ParentKeys && "/Parent" !in WidgetKeys && "/Parent" !in ParentKeys
  {
  }

  /** Patching a widget changes neither /T nor /Parent anywhere. */
  lemma PatchKeepsNames(objs: LinkedObjects, a: Ref, patch: Object, py: PyRuntime)
    requires a in objs
    ensures Names(objs) == Names(PatchedWidget(objs, a, patch, py))
  {
    var res := PatchedWidget(objs, a, patch, py);
    KeysNeverWritten();
    forall r | r in objs
      ensures Names(objs)[r] == Names(res)[r]
    {
      PatchKeepsOtherEntries(objs, a, patch, py, r, "/T");
      PatchKeepsOtherEntries(objs, a, patch, py, r, "/Parent");
    }
  }

  /** The name an entry is looked up by depends only on /T and /Parent. */
  lemma EntryNameStable(o1: LinkedObjects, o2: LinkedObjects, r: Ref)
    requires Names(o1) == Names(o2) && r in o1
    ensures r in o2 && EntryName(r, o1) == EntryName(r, o2)
  {
    assert o1.Keys == Names(o1).Keys == Names(o2).Keys == o2.Keys;
    var d1, d2 := o1[r], o2[r];
    assert ParentLinkOk(d1) && ParentLinkOk(d2);
    assert r in Names(o1) && Names(o1)[r] == Names(o2)[r];
    if "/T" in d1 {
      assert d1["/T"] == d2["/T"];
    } else if "/Parent" in d1 && d1["/Parent"].ref in o1 {
      var n := d1["/Parent"].ref;
      assert d2["/Parent"] == d1["/Parent"];
      assert n in Names(o1) && Names(o1)[n] == Names(o2)[n];
    }
  }

  lemma FindPatchStable(ix: Index, pageNum: nat, idx: nat, ref: Ref, o1: LinkedObjects, o2: LinkedObjects)
    requires Names(o1) == Names(o2)
    ensures FindPatch(ix, pageNum, idx, ref, o1) == FindPatch(ix, pageNum, idx, ref, o2)
    ensures FindPatchAsWritten(ix, pageNum, idx, ref, o1) == FindPatchAsWritten(ix, pageNum, idx, ref, o2)
  {
    assert o1.Keys == Names(o1).Keys == Names(o2).Keys == o2.Keys;
    if ref in o1 {
      EntryNameStable(o1, o2, ref);
    }
  }

  // ---------------------------------------------------------------- extracted identifiers find their entry

  /** A patch carrying the extractor's positional identifier `p{page}-{idx}` is found for entry
      `idx` of page `page`, whatever the entry's name and whatever was indexed before it. */
  lemma PositionalIdFindsItsEntry(ix: Index, p: Object, page: nat, idx: nat, ref: Ref, objs: LinkedObjects, py: PyRuntime)
    requires PatchIdValue(p) == Str(AcroFormExtract.PositionalId(page, idx))
    ensures FindPatch(IndexPatch(ix, p, py), page, idx, ref, objs) == Some(p)
  {
    var fid := AcroFormExtract.PositionalId(page, idx);
    assert fid[0] == 'p';
    PositionalIdIsPositional(page, idx);
    IndexedUnderItsKeys(ix, p, py);
  }

  /** So is a patch carrying a de-duplicated identifier `{base}@{page}-{idx}` whose base has no
      `@`. */
  lemma SuffixedIdFindsItsEntry(ix: Index, p: Object, base: string, page: nat, idx: nat, ref: Ref, objs: LinkedObjects, py: PyRuntime)
    requires '@' !in base && PatchIdValue(p) == Str(base + AcroFormExtract.Suffix(page, idx))
    ensures FindPatch(IndexPatch(ix, p, py), page, idx, ref, objs) == Some(p)
  {
    var fid := base + AcroFormExtract.Suffix(page, idx);
    assert fid[|base|] == '@';
    SuffixedIdIsPositional(base, page, idx);
    IndexedUnderItsKeys(ix, p, py);
  }

  /** A patch carrying the extractor's identifier of a named field, the stripped /T text, is
      found for that field by name when nothing holds the entry's position. */
  lemma NamedIdFindsItsEntry(ix: Index, p: Object, page: nat, idx: nat, ref: Ref, objs: LinkedObjects, py: PyRuntime)
    requires ref in objs && EntryName(ref, objs).Some?
    requires var id := PyStrip(EntryName(ref, objs).value);
      && id != [] && PositionalKey(id).None? && PatchIdValue(p) == Str(id)
    requires (page as int, idx as int) !in ix.pos
    requires EntryName(ref, objs).value in ix.names ==> EntryName(ref, objs).value == PyStrip(EntryName(ref, objs).value)
    ensures FindPatch(IndexPatch(ix, p, py), page, idx, ref, objs) == Some(p)
  {
    var t := EntryName(ref, objs).value;
    var id := PyStrip(t);
    IndexedUnderItsKeys(ix, p, py);
    var r := IndexPatch(ix, p, py);
    assert id in r.names && r.names[id] == p && r.pos == ix.pos;
    if t in r.names && t != id {
      assert Some(t) == FieldNameKey(p, id, py);
    }
  }

  /** The lookup as written misses it whenever the /T text carries surrounding spaces and no
      second name key repeats it: the raw text is not in the table. */
  lemma PaddedNameMissedAsWritten(p: Object, page: nat, idx: nat, ref: Ref, objs: LinkedObjects, py: PyRuntime)
    requires ref in objs && EntryName(ref, objs).Some?
    requires var t := EntryName(ref, objs).value; var id := PyStrip(t);
      && id != [] && PositionalKey(id).None? && PatchIdValue(p) == Str(id)
      && t != id && FieldNameKey(p, id, py) != Some(t)
    ensures FindPatchAsWritten(IndexPatch(Index(map[], map[]), p, py), page, idx, ref, objs) == None
  {
    IndexedUnderItsKeys(Index(map[], map[]), p, py);
  }

  // ---------------------------------------------------------------- one page

  /** The entry is dropped: its patch says `hidden` is True. */
  predicate Dropped(find: Finder, pageNum: nat, idx: nat, ref: Ref, objs: LinkedObjects) {
    var pm := find(pageNum, idx, ref, objs);
    pm.Some? && Hides(pm.value)
  }

  /** The entry resolves and is patched by a non-empty patch that does not hide it. */
  predicate Applied(find: Finder, pageNum: nat, idx: nat, ref: Ref, objs: LinkedObjects) {
    var pm := find(pageNum, idx, ref, objs);
    ref in objs && pm.Some? && pm.value != map[] && !Hides(pm.value)
  }

  /** The first `j` entries without the dropped ones, in their order. */
  function KeptOf(find: Finder, pageNum: nat, annots: seq<Ref>, j: nat, objs: LinkedObjects): seq<Ref>
    requires j <= |annots|
  {
    if j == 0 then []
    else KeptOf(find, pageNum, annots, j - 1, objs) + (if Dropped(find, pageNum, j - 1, annots[j - 1], objs) then [] else [annots[j - 1]])
  }

  /** How many of the first `j` entries are patched. */
  function AppliedCount(find: Finder, pageNum: nat, annots: seq<Ref>, j: nat, objs: LinkedObjects): nat
    requires j <= |annots|
  {
    if j == 0 then 0
    else AppliedCount(find, pageNum, annots, j - 1, objs) + (if Applied(find, pageNum, j - 1, annots[j - 1], objs) then 1 else 0)
  }

  /** The identifiers of the patches applied to the first `j` entries. */
  function AppliedIds(find: Finder, pageNum: nat, annots: seq<Ref>, j: nat, objs: LinkedObjects, py: PyRuntime): set<string>
    requires j <= |annots|
  {
    if j == 0 then {}
    else
      var here := if Applied(find, pageNum, j - 1, annots[j - 1], objs)
        then {PatchId(find(pageNum, j - 1, annots[j - 1], objs).value, py)} else {};
      AppliedIds(find, pageNum, annots, j - 1, objs, py) + here
  }

  /** A patcher that changes no /T and no /Parent. */
  ghost predicate KeepsNames(pw: Patcher) {
    forall o: LinkedObjects, a: Ref, p: Object :: Names(o) == Names(pw(o, a, p))
  }

  /** A finder whose answer depends on the object table only through /T and /Parent. */
  ghost predicate NameBased(find: Finder) {
    forall pageNum: nat, idx: nat, ref: Ref, o1: LinkedObjects, o2: LinkedObjects ::
      Names(o1) == Names(o2) ==> find(pageNum, idx, ref, o1) == find(pageNum, idx, ref, o2)
  }

  /** The script's finder is one, as written and corrected. */
  lemma FinderForNameBased(v: Version, ix: Index)
    ensures NameBased(FinderFor(v, ix))
  {
    forall pageNum: nat, idx: nat, ref: Ref, o1: LinkedObjects, o2: LinkedObjects | Names(o1) == Names(o2)
      ensures FinderFor(v, ix)(pageNum, idx, ref, o1) == FinderFor(v, ix)(pageNum, idx, ref, o2)
    {
      FindPatchStable(ix, pageNum, idx, ref, o1, o2);
    }
  }

  /** The script's patcher is one. */
  lemma WidgetPatcherKeepsNames(py: PyRuntime)
    ensures KeepsNames(WidgetPatcher(py))
  {
    forall o: LinkedObjects, a: Ref, p: Object
      ensures Names(o) == Names(WidgetPatcher(py)(o, a, p))
    {
      if a in o {
        PatchKeepsNames(o, a, p, py);
      }
    }
  }

  /** One more entry is one more step. */
  lemma EntriesUnfold(find: Finder, pageNum: nat, annots: seq<Ref>, k: nat, st: Run, py: PyRuntime, pw: Patcher)
    requires k < |annots|
    ensures var prev := Entries(find, pageNum, annots, k, st, py, pw);
      Entries(find, pageNum, annots, k + 1, st, py, pw) == EntryStep(find, pageNum, k, annots[k], prev.0, prev.1, py, pw)
  {
  }

  /** No /T or /Parent changes while a page's entries are processed. */
  lemma {:induction false} EntriesKeepNames(find: Finder, pageNum: nat, annots: seq<Ref>, j: nat, st: Run, py: PyRuntime, pw: Patcher)
    requires j <= |annots| && KeepsNames(pw)
    ensures Names(st.objects) == Names(Entries(find, pageNum, annots, j, st, py, pw).0.objects)
  {
    if j > 0 {
      var k := j - 1;
      EntriesUnfold(find, pageNum, annots, k, st, py, pw);
      EntriesKeepNames(find, pageNum, annots, k, st, py, pw);
      var prev := Entries(find, pageNum, annots, k, st, py, pw);
      var ref := annots[k];
      var pm := find(pageNum, k, ref, prev.0.objects);
      var o := Entries(find, pageNum, annots, k + 1, st, py, pw).0.objects;
      if pm.Some? && !Hides(pm.value) && ref in prev.0.objects && pm.value != map[] {
        assert o == pw(prev.0.objects, ref, pm.value);
      } else {
        assert o == prev.0.objects;
      }
    }
  }

  /** Patch lookup gives the same answer throughout a page. */
  lemma EntriesFindStable(find: Finder, pageNum: nat, annots: seq<Ref>, k: nat, st: Run, py: PyRuntime, pw: Patcher, idx: nat, ref: Ref)
    requires k <= |annots| && NameBased(find) && KeepsNames(pw)
    ensures find(pageNum, idx, ref, st.objects) == find(pageNum, idx, ref, Entries(find, pageNum, annots, k, st, py, pw).0.objects)
  {
    EntriesKeepNames(find, pageNum, annots, k, st, py, pw);
  }

  /** One entry is kept unless its patch hides it, and it is counted, with its patch's identifier
      recorded, exactly when it is patched. */
  lemma EntryStepEffect(find: Finder, pageNum: nat, idx: nat, ref: Ref, s: Run, kept: seq<Ref>, py: PyRuntime, pw: Patcher)
    ensures var r := EntryStep(find, pageNum, idx, ref, s, kept, py, pw);
      && r.1 == kept + (if Dropped(find, pageNum, idx, ref, s.objects) then [] else [ref])
      && r.0.count == s.count + (if Applied(find, pageNum, idx, ref, s.objects) then 1 else 0)
      && r.0.matched == s.matched
        + (if Applied(find, pageNum, idx, ref, s.objects) then {PatchId(find(pageNum, idx, ref, s.objects).value, py)} else {})
  {
  }

  /** Entry `k` of the page is kept unless its patch hides it, and it is counted, with its patch's
      identifier recorded, exactly when it is patched; lookups are judged against the table the
      page started with. */
  lemma EntriesStep(find: Finder, pageNum: nat, annots: seq<Ref>, k: nat, st: Run, py: PyRuntime, pw: Patcher)
    requires k < |annots| && NameBased(find) && KeepsNames(pw)
    ensures var prev := Entries(find, pageNum, annots, k, st, py, pw);
      var r := Entries(find, pageNum, annots, k + 1, st, py, pw);
      var ref := annots[k];
      && r.1 == prev.1 + (if Dropped(find, pageNum, k, ref, st.objects) then [] else [ref])
      && r.0.count == prev.0.count + (if Applied(find, pageNum, k, ref, st.objects) then 1 else 0)
      && r.0.matched == prev.0.matched
        + (if Applied(find, pageNum, k, ref, st.objects) then {PatchId(find(pageNum, k, ref, st.objects).value, py)} else {})
  {
    var prev := Entries(find, pageNum, annots, k, st, py, pw);
    EntriesUnfold(find, pageNum, annots, k, st, py, pw);
    EntryStepEffect(find, pageNum, k, annots[k], prev.0, prev.1, py, pw);
    EntriesFindStable(find, pageNum, annots, k, st, py, pw, k, annots[k]);
  }

  /** The kept list is the page without its dropped entries. */
  lemma {:induction false} EntriesKept(find: Finder, pageNum: nat, annots: seq<Ref>, j: nat, st: Run, py: PyRuntime, pw: Patcher)
    requires j <= |annots| && NameBased(find) && KeepsNames(pw)
    ensures Entries(find, pageNum, annots, j, st, py, pw).1 == KeptOf(find, pageNum, annots, j, st.objects)
  {
    if j > 0 {
      var k := j - 1;
      EntriesKept(find, pageNum, annots, k, st, py, pw);
      EntriesStep(find, pageNum, annots, k, st, py, pw);
    }
  }

  /** The count grows by the number of patched entries: dropped entries, entries that do not
      resolve and entries without a patch are not counted. */
  lemma {:induction false} EntriesCount(find: Finder, pageNum: nat, annots: seq<Ref>, j: nat, st: Run, py: PyRuntime, pw: Patcher)
    requires j <= |annots| && NameBased(find) && KeepsNames(pw)
    ensures Entries(find, pageNum, annots, j, st, py, pw).0.count == st.count + AppliedCount(find, pageNum, annots, j, st.objects)
  {
    if j > 0 {
      var k := j - 1;
      EntriesCount(find, pageNum, annots, k, st, py, pw);
      EntriesStep(find, pageNum, annots, k, st, py, pw);
    }
  }

  /** The matched identifiers grow by those of the patched entries only; a hidden match is not
      recorded, so the create pass still sees it as unmatched. */
  lemma {:induction false} EntriesMatched(find: Finder, pageNum: nat, annots: seq<Ref>, j: nat, st: Run, py: PyRuntime, pw: Patcher)
    requires j <= |annots| && NameBased(find) && KeepsNames(pw)
    ensures Entries(find, pageNum, annots, j, st, py, pw).0.matched == st.matched + AppliedIds(find, pageNum, annots, j, st.objects, py)
  {
    if j > 0 {
      var k := j - 1;
      EntriesMatched(find, pageNum, annots, k, st, py, pw);
      EntriesStep(find, pageNum, annots, k, st, py, pw);
    }
  }

  /** With no patches indexed, a page keeps every entry and nothing changes. */
  lemma {:induction false} EmptyIndexEntries(v: Version, pageNum: nat, annots: seq<Ref>, j: nat, st: Run, py: PyRuntime, pw: Patcher)
    requires j <= |annots|
    ensures Entries(FinderFor(v, Index(map[], map[])), pageNum, annots, j, st, py, pw) == (st, annots[..j])
  {
    if j > 0 {
      EmptyIndexEntries(v, pageNum, annots, j - 1, st, py, pw);
      EntriesUnfold(FinderFor(v, Index(map[], map[])), pageNum, annots, j - 1, st, py, pw);
      assert FinderFor(v, Index(map[], map[]))(pageNum, j - 1, annots[j - 1], st.objects) == None;
      assert annots[..j] == annots[..j - 1] + [annots[j - 1]];
    }
  }

  /** With no patches indexed, the page pass leaves the document as it was. */
  lemma {:induction false} EmptyIndexPages(v: Version, st: Run, i: nat, py: PyRuntime, pw: Patcher)
    requires i <= |st.pages|
    ensures Pages(FinderFor(v, Index(map[], map[])), st, i, py, pw) == st
  {
    if i > 0 {
      EmptyIndexPages(v, st, i - 1, py, pw);
      if st.pages[i - 1].Some? {
        var annots := st.pages[i - 1].value;
        EmptyIndexEntries(v, i, annots, |annots|, st, py, pw);
        assert annots[..|annots|] == annots;
      }
    }
  }

  /** No page has an /Annots entry. */
  predicate NoAnnots(pages: seq<Option<seq<Ref>>>) {
    forall i :: 0 <= i < |pages| ==> pages[i].GetOr([]) == []
  }

  /** A document without annotations comes out of the page pass unchanged, whatever the finder. */
  lemma {:induction false} PagesWithoutAnnots(find: Finder, st: Run, i: nat, py: PyRuntime, pw: Patcher)
    requires i <= |st.pages| && NoAnnots(st.pages)
    ensures Pages(find, st, i, py, pw) == st
  {
    if i > 0 {
      PagesWithoutAnnots(find, st, i - 1, py, pw);
      assert st.pages[i - 1].GetOr([]) == [];
    }
  }

  /** A finder that never hands out a patch that would be applied: none, or a hiding one. */
  ghost predicate NeverApplies(find: Finder) {
    forall pageNum: nat, idx: nat, ref: Ref, o: LinkedObjects ::
      find(pageNum, idx, ref, o).None? || Hides(find(pageNum, idx, ref, o).value)
  }

  /** Such a finder patches and counts nothing on a page and records no match. */
  lemma {:induction false} EntriesNeverApply(find: Finder, pageNum: nat, annots: seq<Ref>, j: nat, st: Run, py: PyRuntime, pw: Patcher)
    requires j <= |annots| && NeverApplies(find)
    ensures Entries(find, pageNum, annots, j, st, py, pw).0 == st
  {
    if j > 0 {
      EntriesNeverApply(find, pageNum, annots, j - 1, st, py, pw);
      var prev := Entries(find, pageNum, annots, j - 1, st, py, pw);
      var pm := find(pageNum, j - 1, annots[j - 1], prev.0.objects);
      assert pm.None? || Hides(pm.value);
    }
  }

  /** Nor on the whole document: only entries are dropped. */
  lemma {:induction false} PagesNeverApply(find: Finder, st: Run, i: nat, py: PyRuntime, pw: Patcher)
    requires i <= |st.pages| && NeverApplies(find)
    ensures var r := Pages(find, st, i, py, pw);
      r.objects == st.objects && r.count == st.count && r.matched == st.matched
  {
    if i > 0 {
      PagesNeverApply(find, st, i - 1, py, pw);
      var prev := Pages(find, st, i - 1, py, pw);
      if prev.pages[i - 1].Some? {
        var annots := prev.pages[i - 1].value;
        EntriesNeverApply(find, i, annots, |annots|, prev, py, pw);
      }
    }
  }

  /** Nothing is kept twice and nothing appears: every kept entry is one of the page's. */
  lemma {:induction false} KeptOfIsSubsequence(find: Finder, pageNum: nat, annots: seq<Ref>, j: nat, objs: LinkedObjects)
    requires j <= |annots|
    ensures |KeptOf(find, pageNum, annots, j, objs)| <= j
    ensures forall x :: x in KeptOf(find, pageNum, annots, j, objs) ==> x in annots[..j]
  {
    if j > 0 {
      KeptOfIsSubsequence(find, pageNum, annots, j - 1, objs);
      assert annots[..j] == annots[..j - 1] + [annots[j - 1]];
    }
  }

  /** The kept list has every entry exactly when no entry is dropped. */
  lemma {:induction false} KeptAllIffNoneDropped(find: Finder, pageNum: nat, annots: seq<Ref>, j: nat, objs: LinkedObjects)
    requires j <= |annots|
    ensures (|KeptOf(find, pageNum, annots, j, objs)| == j) <==> (forall k :: 0 <= k < j ==> !Dropped(find, pageNum, k, annots[k], objs))
    ensures (forall k :: 0 <= k < j ==> !Dropped(find, pageNum, k, annots[k], objs)) ==> KeptOf(find, pageNum, annots, j, objs) == annots[..j]
  {
    if j > 0 {
      KeptAllIffNoneDropped(find, pageNum, annots, j - 1, objs);
      KeptOfIsSubsequence(find, pageNum, annots, j - 1, objs);
      assert annots[..j] == annots[..j - 1] + [annots[j - 1]];
    }
  }

  /** One page: other pages keep their /Annots; this page's /Annots becomes the kept list when
      an entry was dropped and stays as it was (the same array) otherwise. */
  lemma PageStepEffect(find: Finder, st: Run, i: nat, py: PyRuntime, pw: Patcher)
    requires i < |st.pages| && NameBased(find) && KeepsNames(pw)
    ensures var r := PageStep(find, st, i, py, pw);
      && (forall k :: 0 <= k < |st.pages| && k != i ==> r.pages[k] == st.pages[k])
      && (st.pages[i].None? ==> r == st)
      && (st.pages[i].Some? ==>
            var annots := st.pages[i].value;
            var kept := KeptOf(find, i + 1, annots, |annots|, st.objects);
            && r.pages[i] == (if exists k :: 0 <= k < |annots| && Dropped(find, i + 1, k, annots[k], st.objects) then Some(kept) else st.pages[i])
            && r.count == st.count + AppliedCount(find, i + 1, annots, |annots|, st.objects))
  {
    if st.pages[i].Some? {
      var annots := st.pages[i].value;
      PageStepKept(find, st, i, py, pw);
      KeptAllIffNoneDropped(find, i + 1, annots, |annots|, st.objects);
      assert annots[..|annots|] == annots;
    }
  }

  /** The page step in terms of the kept list: /Annots is replaced exactly when the kept list
      is shorter, and the count grows by the applied entries. */
  lemma PageStepKept(find: Finder, st: Run, i: nat, py: PyRuntime, pw: Patcher)
    requires i < |st.pages| && st.pages[i].Some? && NameBased(find) && KeepsNames(pw)
    ensures var r := PageStep(find, st, i, py, pw);
      var annots := st.pages[i].value;
      var kept := KeptOf(find, i + 1, annots, |annots|, st.objects);
      && r.pages == (if |kept| != |annots| then st.pages[i := Some(kept)] else st.pages)
      && r.count == st.count + AppliedCount(find, i + 1, annots, |annots|, st.objects)
  {
    var annots := st.pages[i].value;
    var e := Entries(find, i + 1, annots, |annots|, st, py, pw);
    EntriesKept(find, i + 1, annots, |annots|, st, py, pw);
    EntriesCount(find, i + 1, annots, |annots|, st, py, pw);
    var r := PageStep(find, st, i, py, pw);
    assert r == if |e.1| != |annots| then e.0.(pages := e.0.pages[i := Some(e.1)]) else e.0;
    assert e.0.pages == st.pages;
  }
}
