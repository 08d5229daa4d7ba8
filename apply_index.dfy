/** The lookup tables `apply_patches` builds from the patch list before it touches the PDF: a
    positional table keyed by (page, annotation index) and a name table keyed by text. */
module AcroFormPatchIndex {
  import opened Wrappers
  import opened Text
  import opened Values
  import AcroFormExtract

  /** `p.get("fieldId") or p.get("field_id") or ""`. */
  function PatchIdValue(p: Object): Value {
    PyOr(PyOr(PyGet(p, "fieldId"), PyGet(p, "field_id")), Str(""))
  }

  /** The patch's identifier as the applier compares it: `str()` of the value above. */
  function PatchId(p: Object, py: PyRuntime): string {
    PyStr(PatchIdValue(p), py)
  }

  /** Python's `s[1:]`, which is empty for the empty string. */
  function DropFirst(s: string): string {
    if s == [] then [] else s[1..]
  }

  function PairOf(a: Option<int>, b: Option<int>): (r: Option<(int, int)>)
    ensures r.Some? <==> a.Some? && b.Some?
  {
    if a.Some? && b.Some? then Some((a.value, b.value)) else None
  }

  /** The position an identifier names: `p{page}-{idx}` without `@` (split at the first `-`),
      or `{name}@{page}-{idx}` (split at the first `@`, then at the first `-`). None when the
      identifier has neither shape or when `int()` raises on a part; unpacking a suffix without
      `-` raises ValueError too. */
  function PositionalKey(fid: string): (r: Option<(int, int)>)
    ensures r.Some? ==> '-' in fid
  {
    if StartsWith(fid, "p") && '-' in fid && '@' !in fid then
      match SplitOnce(fid, '-')
      case None => None
      case Some((a, b)) => PairOf(PyInt(DropFirst(a)), PyInt(b))
    else if '@' in fid && '-' in fid then
      match SplitOnce(fid, '@')
      case None => None
      case Some((_, suffix)) =>
        match SplitOnce(suffix, '-')
        case None => None
        case Some((ps, qs)) => PairOf(PyInt(ps), PyInt(qs))
    else None
  }

  /** The second name key: `fieldName or field_name`, through `str()` and stripped, when that is
      non-empty and differs from the identifier. */
  function FieldNameKey(p: Object, fid: string, py: PyRuntime): (r: Option<string>)
    ensures r.Some? ==> r.value != [] && r.value != fid
  {
    var v := PyOr(PyGet(p, "fieldName"), PyGet(p, "field_name"));
    if !PyTruthy(v) then None
    else
      var n := PyStrip(PyStr(v, py));
      if n != [] && n != fid then Some(n) else None
  }

  datatype Index = Index(pos: map<(int, int), Object>, names: map<string, Object>)

  /** One iteration of the indexing loop over a dictionary patch. */
  function IndexPatch(ix: Index, p: Object, py: PyRuntime): Index {
    var v := PatchIdValue(p);
    if !PyTruthy(v) then ix
    else
      var fid := PyStr(v, py);
      Insert(ix, p, PositionalKey(fid), fid, FieldNameKey(p, fid, py))
  }

  /** Writes `p` under its position (or else its identifier), then under its second name. */
  function Insert(ix: Index, p: Object, key: Option<(int, int)>, fid: string, second: Option<string>): Index {
    var ix1 := match key
      case Some(k) => ix.(pos := ix.pos[k := p])
      case None => ix.(names := ix.names[fid := p]);
    match second
    case Some(n) => ix1.(names := ix1.names[n := p])
    case None => ix1
  }

  /** The indexing loop; an entry that is not a dictionary has no `get` and raises
      AttributeError. */
  function BuildIndex(ps: seq<Value>, py: PyRuntime): Result<Index> {
    if ps == [] then Success(Index(map[], map[]))
    else match BuildIndex(ps[..|ps| - 1], py)
      case Failure(e) => Failure(e)
      case Success(ix) =>
        var p := ps[|ps| - 1];
        if p.Dict? then Success(IndexPatch(ix, p.entries, py)) else Failure("AttributeError")
  }

  /** The patch list: a JSON value that is not a list counts as the empty list. */
  function PatchList(patches: Value): seq<Value> {
    if patches.List? then patches.items else []
  }

  // ---------------------------------------------------------------- lemmas

  /** A patch whose identifier is missing or empty is never indexed. */
  lemma NoIdNotIndexed(ix: Index, p: Object, py: PyRuntime)
    requires !PyTruthy(PyGet(p, "fieldId")) && !PyTruthy(PyGet(p, "field_id"))
    ensures IndexPatch(ix, p, py) == ix
  {
  }

  /** A patch with an identifier is written under its position or, failing that, under the
      identifier itself; a distinct field name is a second name key. Later patches overwrite
      earlier ones under the same key, and no other key changes. */
  lemma IndexedUnderItsKeys(ix: Index, p: Object, py: PyRuntime)
    requires PyTruthy(PatchIdValue(p))
    ensures var fid := PatchId(p, py);
      var r := IndexPatch(ix, p, py);
      && (PositionalKey(fid).Some? ==> r.pos == ix.pos[PositionalKey(fid).value := p])
      && (PositionalKey(fid).None? ==> fid in r.names && r.names[fid] == p && r.pos == ix.pos)
      && (FieldNameKey(p, fid, py).Some? ==> r.names[FieldNameKey(p, fid, py).value] == p)
      && (forall n :: n in ix.names && n != fid && Some(n) != FieldNameKey(p, fid, py) ==> n in r.names && r.names[n] == ix.names[n])
      && (forall n :: n in r.names ==> n in ix.names || n == fid || Some(n) == FieldNameKey(p, fid, py))
  {
    var fid := PatchId(p, py);
    InsertKeys(ix, p, PositionalKey(fid), fid, FieldNameKey(p, fid, py));
  }

  lemma InsertKeys(ix: Index, p: Object, key: Option<(int, int)>, fid: string, second: Option<string>)
    requires second.Some? ==> second.value != fid
    ensures var r := Insert(ix, p, key, fid, second);
      && (key.Some? ==> r.pos == ix.pos[key.value := p])
      && (key.None? ==> fid in r.names && r.names[fid] == p && r.pos == ix.pos)
      && (second.Some? ==> r.names[second.value] == p)
      && (forall n :: n in ix.names && n != fid && Some(n) != second ==> n in r.names && r.names[n] == ix.names[n])
      && (forall n :: n in r.names ==> n in ix.names || n == fid || Some(n) == second)
  {
  }

  /** A failing entry makes the whole loop fail with its error. */
  lemma {:induction false} BuildIndexFailsAt(ps: seq<Value>, i: nat, py: PyRuntime)
    requires i < |ps| && BuildIndex(ps[..i], py).Success? && !ps[i].Dict?
    ensures BuildIndex(ps, py) == Failure("AttributeError")
    decreases |ps|
  {
    if i + 1 == |ps| {
      assert ps[..|ps| - 1] == ps[..i];
    } else {
      var init := ps[..|ps| - 1];
      assert init[..i] == ps[..i] && init[i] == ps[i];
      BuildIndexFailsAt(init, i, py);
    }
  }

  /** The loop fails exactly when some entry is not a dictionary. */
  lemma {:induction false} BuildIndexFailsOnNonDict(ps: seq<Value>, py: PyRuntime)
    ensures BuildIndex(ps, py).Failure? <==> exists k :: 0 <= k < |ps| && !ps[k].Dict?
  {
    if ps != [] {
      var init := ps[..|ps| - 1];
      BuildIndexFailsOnNonDict(init, py);
      if BuildIndex(init, py).Failure? {
        var k :| 0 <= k < |init| && !init[k].Dict?;
        assert ps[k] == init[k];
      } else if !ps[|ps| - 1].Dict? {
        assert BuildIndex(ps, py).Failure?;
      } else {
        forall k | 0 <= k < |ps| ensures ps[k].Dict? {
          if k < |init| { assert ps[k] == init[k]; }
        }
      }
    }
  }

  /** The only error the loop raises is AttributeError. */
  lemma {:induction false} BuildIndexError(ps: seq<Value>, py: PyRuntime)
    ensures BuildIndex(ps, py).Failure? ==> BuildIndex(ps, py).error == "AttributeError"
  {
    if ps != [] {
      BuildIndexError(ps[..|ps| - 1], py);
    }
  }

  lemma PyIntOfNat(n: nat)
    ensures PyInt(NatToDecimal(n)) == Some(n as int)
  {
    assert IntToDecimal(n) == NatToDecimal(n);
    PyIntOfIntToDecimal(n);
  }

  /** The extractor's positional identifier `p{page}-{idx}` indexes under its own position. */
  lemma PositionalIdIsPositional(page: nat, idx: nat)
    ensures PositionalKey(AcroFormExtract.PositionalId(page, idx)) == Some((page as int, idx as int))
  {
    var a := "p" + NatToDecimal(page);
    var b := NatToDecimal(idx);
    var fid := AcroFormExtract.PositionalId(page, idx);
    assert fid == a + ['-'] + b;
    assert '-' !in a by {
      forall k | 0 <= k < |a| ensures a[k] != '-' {
        if k > 0 { assert a[k] == NatToDecimal(page)[k - 1]; }
      }
    }
    assert '@' !in fid by {
      forall k | 0 <= k < |fid| ensures fid[k] != '@' {
        if 1 <= k < |a| { assert fid[k] == NatToDecimal(page)[k - 1]; }
        else if k > |a| { assert fid[k] == b[k - |a| - 1]; }
      }
    }
    assert fid[..1] == "p";
    assert fid[|a|] == '-';
    SplitOnceOf(a, '-', b);
    assert DropFirst(a) == NatToDecimal(page);
    PyIntOfNat(page);
    PyIntOfNat(idx);
  }

  /** The extractor's de-duplicated identifier `{base}@{page}-{idx}` indexes under its own
      position when the base has no `@`. */
  lemma SuffixedIdIsPositional(base: string, page: nat, idx: nat)
    requires '@' !in base
    ensures PositionalKey(base + AcroFormExtract.Suffix(page, idx)) == Some((page as int, idx as int))
  {
    var ps := NatToDecimal(page);
    var qs := NatToDecimal(idx);
    var suffix := ps + ['-'] + qs;
    var fid := base + AcroFormExtract.Suffix(page, idx);
    assert fid == base + ['@'] + suffix;
    assert fid[|base|] == '@' && suffix[|ps|] == '-';
    SplitOnceOf(base, '@', suffix);
    SplitOnceOf(ps, '-', qs);
    PyIntOfNat(page);
    PyIntOfNat(idx);
  }
}
