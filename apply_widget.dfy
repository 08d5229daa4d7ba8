/** The writes `apply_patches` makes to one matched widget annotation and to its parent field,
    in the order the script makes them, and what those writes leave behind. */
module AcroFormPatchWidget {
  import opened Wrappers
  import opened Text
  import opened Values
  import opened Pdf
  import opened AcroFormPatchRules
  import DaFontSize

  /** One assignment `obj[key] = value` to an indirect dictionary. */
  datatype Write = Write(ref: Ref, key: string, val: PdfObj)

  /** The keys the applier writes on the widget itself, and on its parent field. */
  const WidgetKeys: set<string> := {"/Rect", "/TU", "/V", "/DV", "/DA"}
  const ParentKeys: set<string> := {"/V", "/DV", "/FT", "/MaxLen", "/Opt"}

  /** Writes to existing dictionaries that leave /Parent alone. */
  predicate WritesOk(ws: seq<Write>, objs: map<Ref, Dict>) {
    forall k :: 0 <= k < |ws| ==> ws[k].ref in objs && ws[k].key != "/Parent"
  }

  /** `obj[key] = value`; /Parent is never assigned, so every parent link stays a reference. */
  function SetKey(objs: LinkedObjects, r: Ref, key: string, v: PdfObj): (res: LinkedObjects)
    requires r in objs && key != "/Parent"
    ensures res.Keys == objs.Keys
    ensures res[r] == objs[r][key := v]
    ensures forall q :: q in objs && q != r ==> res[q] == objs[q]
  {
    assert ParentLinkOk(objs[r]);
    objs[r := objs[r][key := v]]
  }

  /** The writes performed one after the other; a write to a missing object or to /Parent,
      which the applier never makes, changes nothing. */
  function ApplyWrites(objs: LinkedObjects, ws: seq<Write>): (res: LinkedObjects)
    ensures res.Keys == objs.Keys
    decreases |ws|
  {
    if ws == [] then objs
    else
      var prev := ApplyWrites(objs, ws[..|ws| - 1]);
      var w := ws[|ws| - 1];
      if w.ref in prev && w.key != "/Parent" then SetKey(prev, w.ref, w.key, w.val) else prev
  }

  /** The value of the last write to `key` of `r`, if there is one. */
  function LastWrite(ws: seq<Write>, r: Ref, key: string): Option<PdfObj> {
    if ws == [] then None
    else if ws[|ws| - 1].ref == r && ws[|ws| - 1].key == key then Some(ws[|ws| - 1].val)
    else LastWrite(ws[..|ws| - 1], r, key)
  }

  /** A write of `v` when there is one. */
  function Put(r: Ref, key: string, v: Option<PdfObj>): (ws: seq<Write>)
    ensures |ws| <= 1
    ensures forall k :: 0 <= k < |ws| ==> ws[k].ref == r && ws[k].key == key
  {
    if v.Some? then [Write(r, key, v.value)] else []
  }

  function TextObj(s: Option<string>): Option<PdfObj> {
    if s.Some? then Some(PStr(s.value)) else None
  }

  // ---------------------------------------------------------------- what a patch asks for

  /** The new /Rect: a `rect` list of at least four entries whose first four all convert with
      `float()`; None when the list is too short or a conversion raises. */
  function RectArray(rect: Value, py: PyRuntime): (r: Option<PdfObj>)
    ensures r.Some? ==> rect.List? && |rect.items| >= 4
    ensures r.Some? ==> r.value.PArray? && |r.value.items| == 4
  {
    if rect.List? && |rect.items| >= 4 then
      var xs := rect.items;
      match (PyFloat(xs[0], py), PyFloat(xs[1], py), PyFloat(xs[2], py), PyFloat(xs[3], py))
      case (Some(a), Some(b), Some(c), Some(d)) => Some(PArray([PReal(a), PReal(b), PReal(c), PReal(d)]))
      case _ => None
    else None
  }

  /** The tooltip (/TU): `str(label).strip()` when `label` is present, not null and not blank. */
  function LabelText(patch: Object, py: PyRuntime): (r: Option<string>)
    ensures r.Some? ==> r.value != []
  {
    if "label" in patch && patch["label"] != Null && PyStrip(PyStr(patch["label"], py)) != [] then
      Some(PyStrip(PyStr(patch["label"], py)))
    else None
  }

  /** The value for /V and /DV: `str(defaultValue)` when the key is present and not null. */
  function DefaultText(patch: Object, py: PyRuntime): (r: Option<string>)
    ensures r.Some? <==> "defaultValue" in patch && patch["defaultValue"] != Null
  {
    if "defaultValue" in patch && patch["defaultValue"] != Null then Some(PyStr(patch["defaultValue"], py))
    else None
  }

  /** /MaxLen: `int(maxLen)` when present and not null; None where `int()` raises. */
  function MaxLenValue(patch: Object): (r: Option<int>)
    ensures r.Some? ==> "maxLen" in patch && PyIntOf(patch["maxLen"]) == r
  {
    if "maxLen" in patch && patch["maxLen"] != Null then PyIntOf(patch["maxLen"]) else None
  }

  /** One /Opt entry: a `{value, label}` item is `[export, display]` when its stripped label
      differs from the export value and just the export value otherwise; a string is itself;
      anything else is its `str()`. */
  function OptItem(item: Value, py: PyRuntime): (r: PdfObj)
    ensures r.PStr? || (r.PArray? && |r.items| == 2 && r.items[0].PStr? && r.items[1].PStr?)
  {
    match item
    case Dict(m) =>
      var v := if "value" in m then m["value"] else Str("");
      var vs := if v != Null then PyStr(v, py) else "";
      var lbl := PyGet(m, "label");
      if lbl != Null && PyStrip(PyStr(lbl, py)) != vs then PArray([PStr(vs), PStr(PyStr(lbl, py))])
      else PStr(vs)
    case Str(s) => PStr(s)
    case _ => PStr(PyStr(item, py))
  }

  /** The /Opt array, entry by entry. */
  function OptArray(items: seq<Value>, py: PyRuntime): (r: seq<PdfObj>)
    ensures |r| == |items|
    ensures forall k :: 0 <= k < |items| ==> r[k] == OptItem(items[k], py)
  {
    if items == [] then [] else OptArray(items[..|items| - 1], py) + [OptItem(items[|items| - 1], py)]
  }

  /** The new /Opt: only a non-empty `options` list produces one. */
  function OptObj(options: Value, py: PyRuntime): (r: Option<PdfObj>)
    ensures r.Some? <==> options.List? && options.items != []
  {
    if options.List? && |options.items| > 0 then Some(PArray(OptArray(options.items, py))) else None
  }

  /** The new /DA: written when `fontSize` or `fontFamily` is present, from
      `float(fontSize or font_size or 11)` and `fontFamily or font_family`; None where `float()`
      raises. */
  function DaText(patch: Object, py: PyRuntime): (r: Option<string>)
    ensures r.Some? ==> "fontSize" in patch || "fontFamily" in patch
  {
    if "fontSize" in patch || "fontFamily" in patch then
      match PyFloat(PyOr(PyOr(PyGet(patch, "fontSize"), PyGet(patch, "font_size")), Int(11)), py)
      case None => None
      case Some(size) => Some(BuildDaString(size, PyOr(PyGet(patch, "fontFamily"), PyGet(patch, "font_family")), py))
    else None
  }

  /** Everything a patch asks of a matched widget, each entry None when the script writes
      nothing for it. */
  datatype Asked = Asked(
    rect: Option<PdfObj>,
    tip: Option<string>,
    value: Option<string>,
    fieldType: Option<string>,
    maxLen: Option<int>,
    opt: Option<PdfObj>,
    da: Option<string>)

  function Asks(patch: Object, py: PyRuntime): Asked {
    Asked(RectArray(PyGet(patch, "rect"), py), LabelText(patch, py), DefaultText(patch, py),
      PatchFieldType(patch, py), MaxLenValue(patch), OptObj(PyGet(patch, "options"), py), DaText(patch, py))
  }

  // ---------------------------------------------------------------- the writes, in order

  /** The parent field the applier writes to: the widget's /Parent, when it resolves. It is
      read once, before any write. */
  function ParentRef(objs: LinkedObjects, a: Ref): (r: Option<Ref>)
    requires a in objs
    ensures r.Some? ==> r.value in objs
    ensures r.Some? <==> ParentOf(objs[a], objs).Some?
  {
    assert ParentLinkOk(objs[a]);
    if "/Parent" in objs[a] && objs[a]["/Parent"].ref in objs then Some(objs[a]["/Parent"].ref) else None
  }

  /** Each write goes to `r`, to one of `keys`. */
  predicate WritesTo(ws: seq<Write>, r: Ref, keys: set<string>) {
    forall k :: 0 <= k < |ws| ==> ws[k].ref == r && ws[k].key in keys
  }

  lemma WritesToConcat(x: seq<Write>, y: seq<Write>, r: Ref, keys: set<string>)
    requires WritesTo(x, r, keys) && WritesTo(y, r, keys)
    ensures WritesTo(x + y, r, keys)
  {
    forall k | 0 <= k < |x + y| ensures (x + y)[k].ref == r && (x + y)[k].key in keys {
      if k >= |x| { assert (x + y)[k] == y[k - |x|]; }
    }
  }

  /** /Rect, then /TU, on the widget. */
  function FrameWrites(a: Ref, w: Asked): (ws: seq<Write>)
    ensures WritesTo(ws, a, {"/Rect", "/TU"})
  {
    var w1 := Put(a, "/Rect", w.rect);
    var w2 := Put(a, "/TU", TextObj(w.tip));
    WritesToConcat(w1, w2, a, {"/Rect", "/TU"});
    w1 + w2
  }

  /** /V and /DV on `r`. */
  function ValuePair(r: Ref, v: string): (ws: seq<Write>)
    ensures WritesTo(ws, r, {"/V", "/DV"})
  {
    [Write(r, "/V", PStr(v)), Write(r, "/DV", PStr(v))]
  }

  /** /V and /DV on the widget. */
  function WidgetValueWrites(a: Ref, w: Asked): (ws: seq<Write>)
    ensures WritesTo(ws, a, {"/V", "/DV"})
  {
    if w.value.None? then [] else ValuePair(a, w.value.value)
  }

  /** /V and /DV on the parent. */
  function ParentValueWrites(p: Option<Ref>, w: Asked): (ws: seq<Write>)
    ensures p.Some? ==> WritesTo(ws, p.value, {"/V", "/DV"})
    ensures p.None? ==> ws == []
  {
    if w.value.None? || p.None? then [] else ValuePair(p.value, w.value.value)
  }

  function NameObj(t: Option<string>): Option<PdfObj> {
    if t.Some? then Some(PName(t.value)) else None
  }

  function IntObj(n: Option<int>): Option<PdfObj> {
    if n.Some? then Some(PInt(n.value)) else None
  }

  /** /FT, /MaxLen and /Opt, on the parent only. */
  function ParentWrites(p: Option<Ref>, w: Asked): (ws: seq<Write>)
    ensures p.Some? ==> WritesTo(ws, p.value, {"/FT", "/MaxLen", "/Opt"})
    ensures p.None? ==> ws == []
  {
    if p.None? then []
    else
      var w1 := Put(p.value, "/FT", NameObj(w.fieldType));
      var w2 := Put(p.value, "/MaxLen", IntObj(w.maxLen));
      var w3 := Put(p.value, "/Opt", w.opt);
      WritesToConcat(w1, w2, p.value, {"/FT", "/MaxLen", "/Opt"});
      WritesToConcat(w1 + w2, w3, p.value, {"/FT", "/MaxLen", "/Opt"});
      w1 + w2 + w3
  }

  /** /DA on the widget. */
  function DaWrites(a: Ref, w: Asked): (ws: seq<Write>)
    ensures WritesTo(ws, a, {"/DA"})
  {
    Put(a, "/DA", TextObj(w.da))
  }

  /** Every write the applier makes for one matched widget `a` whose resolved parent is
      `parent`, in the script's order: /Rect, /TU, the values on the widget and on the parent,
      the parent's type, length and options, and /DA. */
  function WidgetWrites(a: Ref, parent: Option<Ref>, w: Asked): seq<Write> {
    FrameWrites(a, w) + WidgetValueWrites(a, w) + ParentValueWrites(parent, w)
    + ParentWrites(parent, w) + DaWrites(a, w)
  }

  /** Each write goes to a widget key of `a` or to a parent key of `parent`. */
  predicate Addressed(ws: seq<Write>, a: Ref, parent: Option<Ref>) {
    forall k :: 0 <= k < |ws| ==>
      (ws[k].ref == a && ws[k].key in WidgetKeys) || (parent.Some? && ws[k].ref == parent.value && ws[k].key in ParentKeys)
  }

  lemma AddressedConcat(x: seq<Write>, y: seq<Write>, a: Ref, parent: Option<Ref>)
    requires Addressed(x, a, parent) && Addressed(y, a, parent)
    ensures Addressed(x + y, a, parent)
  {
    forall k | 0 <= k < |x + y|
      ensures ((x + y)[k].ref == a && (x + y)[k].key in WidgetKeys)
        || (parent.Some? && (x + y)[k].ref == parent.value && (x + y)[k].key in ParentKeys)
    {
      if k >= |x| { assert (x + y)[k] == y[k - |x|]; }
    }
  }

  lemma WritesToAddressed(ws: seq<Write>, r: Ref, a: Ref, parent: Option<Ref>, keys: set<string>)
    requires WritesTo(ws, r, keys)
    requires (r == a && keys <= WidgetKeys) || (parent == Some(r) && keys <= ParentKeys)
    ensures Addressed(ws, a, parent)
  {
  }

  lemma WidgetWritesAddressed(a: Ref, parent: Option<Ref>, w: Asked)
    ensures Addressed(WidgetWrites(a, parent, w), a, parent)
  {
    var f := FrameWrites(a, w);
    var wv := WidgetValueWrites(a, w);
    var pv := ParentValueWrites(parent, w);
    var pw := ParentWrites(parent, w);
    var d := DaWrites(a, w);
    WritesToAddressed(f, a, a, parent, {"/Rect", "/TU"});
    WritesToAddressed(wv, a, a, parent, {"/V", "/DV"});
    WritesToAddressed(d, a, a, parent, {"/DA"});
    if parent.Some? {
      WritesToAddressed(pv, parent.value, a, parent, {"/V", "/DV"});
      WritesToAddressed(pw, parent.value, a, parent, {"/FT", "/MaxLen", "/Opt"});
    }
    AddressedConcat(f, wv, a, parent);
    AddressedConcat(f + wv, pv, a, parent);
    AddressedConcat(f + wv + pv, pw, a, parent);
    AddressedConcat(f + wv + pv + pw, d, a, parent);
  }

  lemma WidgetWritesOk(objs: LinkedObjects, a: Ref, w: Asked)
    requires a in objs
    ensures WritesOk(WidgetWrites(a, ParentRef(objs, a), w), objs)
  {
    var ws := WidgetWrites(a, ParentRef(objs, a), w);
    WidgetWritesAddressed(a, ParentRef(objs, a), w);
    assert "/Parent" !in WidgetKeys && "/Parent" !in ParentKeys;
    forall k | 0 <= k < |ws| ensures ws[k].ref in objs && ws[k].key != "/Parent" {
      assert ws[k].key in WidgetKeys || ws[k].key in ParentKeys;
    }
  }

  /** The objects after the writes for widget `a`. */
  function WriteWidget(objs: LinkedObjects, a: Ref, w: Asked): (res: LinkedObjects)
    requires a in objs
    ensures res.Keys == objs.Keys
  {
    ApplyWrites(objs, WidgetWrites(a, ParentRef(objs, a), w))
  }

  /** The objects after patching widget `a` with `patch`. */
  function PatchedWidget(objs: LinkedObjects, a: Ref, patch: Object, py: PyRuntime): (res: LinkedObjects)
    requires a in objs
    ensures res.Keys == objs.Keys
  {
    WriteWidget(objs, a, Asks(patch, py))
  }

  // ---------------------------------------------------------------- general facts about writes

  /** After the writes an entry holds the last value written to it, or the value it had. */
  lemma {:induction false} ApplyWritesGet(objs: LinkedObjects, ws: seq<Write>, r: Ref, key: string)
    requires WritesOk(ws, objs) && r in objs
    ensures Get(ApplyWrites(objs, ws)[r], key) == if LastWrite(ws, r, key).Some? then LastWrite(ws, r, key) else Get(objs[r], key)
    decreases |ws|
  {
    if ws != [] {
      ApplyWritesGet(objs, ws[..|ws| - 1], r, key);
    }
  }

  /** A dictionary no write addresses is left exactly as it was. */
  lemma {:induction false} ApplyWritesUntouched(objs: LinkedObjects, ws: seq<Write>, q: Ref)
    requires WritesOk(ws, objs) && q in objs
    requires forall k :: 0 <= k < |ws| ==> ws[k].ref != q
    ensures ApplyWrites(objs, ws)[q] == objs[q]
    decreases |ws|
  {
    if ws != [] {
      ApplyWritesUntouched(objs, ws[..|ws| - 1], q);
    }
  }

  lemma {:induction false} LastWriteConcat(x: seq<Write>, y: seq<Write>, r: Ref, key: string)
    ensures LastWrite(x + y, r, key) == if LastWrite(y, r, key).Some? then LastWrite(y, r, key) else LastWrite(x, r, key)
    decreases |y|
  {
    if y == [] {
      assert x + y == x;
    } else {
      assert (x + y)[..|x + y| - 1] == x + y[..|y| - 1];
      LastWriteConcat(x, y[..|y| - 1], r, key);
    }
  }

  lemma {:induction false} LastWriteAbsent(ws: seq<Write>, r: Ref, key: string)
    requires forall k :: 0 <= k < |ws| ==> ws[k].ref != r || ws[k].key != key
    ensures LastWrite(ws, r, key).None?
    decreases |ws|
  {
    if ws != [] {
      LastWriteAbsent(ws[..|ws| - 1], r, key);
    }
  }

  lemma LastWriteOutside(ws: seq<Write>, r: Ref, keys: set<string>, q: Ref, key: string)
    requires WritesTo(ws, r, keys) && (q != r || key !in keys)
    ensures LastWrite(ws, q, key).None?
  {
    LastWriteAbsent(ws, q, key);
  }

  lemma PutLast(r: Ref, key: string, v: Option<PdfObj>, q: Ref, k: string)
    ensures LastWrite(Put(r, key, v), q, k) == if q == r && k == key then v else None
  {
    if v.Some? {
      assert Put(r, key, v)[..0] == [];
    }
  }

  lemma ValuePairLast(r: Ref, v: string, q: Ref, key: string)
    ensures LastWrite(ValuePair(r, v), q, key) == if q == r && (key == "/V" || key == "/DV") then Some(PStr(v)) else None
  {
    var ws := ValuePair(r, v);
    var w0 := [Write(r, "/V", PStr(v))];
    assert ws[..1] == w0 && w0[..0] == [];
    assert |"/V"| != |"/DV"|;
    assert LastWrite(w0, q, key) == if q == r && key == "/V" then Some(PStr(v)) else None;
  }

  /** What an entry holds after a widget's writes: the last write of the latest segment, in the
      script's order, that writes it, or else its old value. */
  lemma WriteWidgetGet(objs: LinkedObjects, a: Ref, w: Asked, q: Ref, key: string)
    requires a in objs && q in objs
    ensures var parent := ParentRef(objs, a);
      var l4 := LastWrite(DaWrites(a, w), q, key);
      var l3 := LastWrite(ParentWrites(parent, w), q, key);
      var l2 := LastWrite(ParentValueWrites(parent, w), q, key);
      var l1 := LastWrite(WidgetValueWrites(a, w), q, key);
      var l0 := LastWrite(FrameWrites(a, w), q, key);
      Get(WriteWidget(objs, a, w)[q], key) ==
        if l4.Some? then l4 else if l3.Some? then l3 else if l2.Some? then l2 else if l1.Some? then l1
        else if l0.Some? then l0 else Get(objs[q], key)
  {
    var parent := ParentRef(objs, a);
    var f := FrameWrites(a, w);
    var wv := WidgetValueWrites(a, w);
    var pv := ParentValueWrites(parent, w);
    var pw := ParentWrites(parent, w);
    var d := DaWrites(a, w);
    WidgetWritesOk(objs, a, w);
    ApplyWritesGet(objs, WidgetWrites(a, parent, w), q, key);
    LastWriteConcat(f + wv + pv + pw, d, q, key);
    LastWriteConcat(f + wv + pv, pw, q, key);
    LastWriteConcat(f + wv, pv, q, key);
    LastWriteConcat(f, wv, q, key);
  }

  // ---------------------------------------------------------------- what one widget patch does

  /** An entry the patch does not address keeps its value: the widget changes only in /Rect,
      /TU, /V, /DV and /DA, its parent only in /V, /DV, /FT, /MaxLen and /Opt, and every other
      dictionary not at all. In particular /T and /Parent never change. */
  lemma PatchKeepsOtherEntries(objs: LinkedObjects, a: Ref, patch: Object, py: PyRuntime, q: Ref, key: string)
    requires a in objs && q in objs
    requires q != a || key !in WidgetKeys
    requires ParentRef(objs, a) != Some(q) || key !in ParentKeys
    ensures Get(PatchedWidget(objs, a, patch, py)[q], key) == Get(objs[q], key)
  {
    var w := Asks(patch, py);
    var parent := ParentRef(objs, a);
    var ws := WidgetWrites(a, parent, w);
    WidgetWritesOk(objs, a, w);
    WidgetWritesAddressed(a, parent, w);
    LastWriteAbsent(ws, q, key);
    ApplyWritesGet(objs, ws, q, key);
  }

  /** A dictionary other than the widget and its parent is left exactly as it was. */
  lemma PatchKeepsOtherObjects(objs: LinkedObjects, a: Ref, patch: Object, py: PyRuntime, q: Ref)
    requires a in objs && q in objs && q != a && ParentRef(objs, a) != Some(q)
    ensures PatchedWidget(objs, a, patch, py)[q] == objs[q]
  {
    var w := Asks(patch, py);
    var parent := ParentRef(objs, a);
    WidgetWritesOk(objs, a, w);
    WidgetWritesAddressed(a, parent, w);
    ApplyWritesUntouched(objs, WidgetWrites(a, parent, w), q);
  }

  lemma WriteWidgetValuesSet(objs: LinkedObjects, a: Ref, w: Asked, q: Ref, key: string)
    requires a in objs && q in objs && (key == "/V" || key == "/DV")
    requires w.value.Some? && (q == a || ParentRef(objs, a) == Some(q))
    ensures Get(WriteWidget(objs, a, w)[q], key) == Some(PStr(w.value.value))
  {
    var parent := ParentRef(objs, a);
    WriteWidgetGet(objs, a, w, q, key);
    LastWriteOutside(DaWrites(a, w), a, {"/DA"}, q, key);
    if parent.Some? {
      LastWriteOutside(ParentWrites(parent, w), parent.value, {"/FT", "/MaxLen", "/Opt"}, q, key);
    }
    if parent == Some(q) {
      ValuePairLast(q, w.value.value, q, key);
    } else {
      ValuePairLast(a, w.value.value, q, key);
    }
  }

  lemma WriteWidgetValuesKept(objs: LinkedObjects, a: Ref, w: Asked, q: Ref, key: string)
    requires a in objs && q in objs && (key == "/V" || key == "/DV")
    requires w.value.None? || (q != a && ParentRef(objs, a) != Some(q))
    ensures Get(WriteWidget(objs, a, w)[q], key) == Get(objs[q], key)
  {
    var parent := ParentRef(objs, a);
    WriteWidgetGet(objs, a, w, q, key);
    LastWriteOutside(DaWrites(a, w), a, {"/DA"}, q, key);
    LastWriteOutside(FrameWrites(a, w), a, {"/Rect", "/TU"}, q, key);
    if parent.Some? {
      LastWriteOutside(ParentWrites(parent, w), parent.value, {"/FT", "/MaxLen", "/Opt"}, q, key);
    }
    if w.value.None? {
      assert WidgetValueWrites(a, w) == [] && ParentValueWrites(parent, w) == [];
    } else {
      LastWriteOutside(WidgetValueWrites(a, w), a, {"/V", "/DV"}, q, key);
      if parent.Some? {
        LastWriteOutside(ParentValueWrites(parent, w), parent.value, {"/V", "/DV"}, q, key);
      }
    }
  }

  /** `defaultValue` sets /V and /DV to `str(defaultValue)` on the widget and, when it resolves,
      on the parent; without one, neither key changes anywhere. */
  lemma PatchSetsValues(objs: LinkedObjects, a: Ref, patch: Object, py: PyRuntime, q: Ref, key: string)
    requires a in objs && q in objs && (key == "/V" || key == "/DV")
    ensures var res := PatchedWidget(objs, a, patch, py);
      var v := DefaultText(patch, py);
      && (v.Some? && (q == a || ParentRef(objs, a) == Some(q)) ==> Get(res[q], key) == Some(PStr(v.value)))
      && (v.None? || (q != a && ParentRef(objs, a) != Some(q)) ==> Get(res[q], key) == Get(objs[q], key))
  {
    var w := Asks(patch, py);
    if w.value.Some? && (q == a || ParentRef(objs, a) == Some(q)) {
      WriteWidgetValuesSet(objs, a, w, q, key);
    } else {
      WriteWidgetValuesKept(objs, a, w, q, key);
    }
  }

  /** A widget key written by one `Put` of the frame or /DA segment, and by nothing else. */
  lemma WriteWidgetOwnKey(objs: LinkedObjects, a: Ref, w: Asked, key: string, v: Option<PdfObj>)
    requires a in objs
    requires (key == "/Rect" && v == w.rect) || (key == "/TU" && v == TextObj(w.tip)) || (key == "/DA" && v == TextObj(w.da))
    ensures Get(WriteWidget(objs, a, w)[a], key) == if v.Some? then v else Get(objs[a], key)
  {
    var parent := ParentRef(objs, a);
    WriteWidgetGet(objs, a, w, a, key);
    LastWriteOutside(WidgetValueWrites(a, w), a, {"/V", "/DV"}, a, key);
    if parent.Some? {
      LastWriteOutside(ParentWrites(parent, w), parent.value, {"/FT", "/MaxLen", "/Opt"}, a, key);
      LastWriteOutside(ParentValueWrites(parent, w), parent.value, {"/V", "/DV"}, a, key);
    }
    var w1 := Put(a, "/Rect", w.rect);
    var w2 := Put(a, "/TU", TextObj(w.tip));
    assert FrameWrites(a, w) == w1 + w2;
    LastWriteConcat(w1, w2, a, key);
    PutLast(a, "/Rect", w.rect, a, key);
    PutLast(a, "/TU", TextObj(w.tip), a, key);
    PutLast(a, "/DA", TextObj(w.da), a, key);
  }

  /** /Rect becomes the four numbers of a `rect` list of at least four numbers, and changes only
      then; /TU becomes the stripped label when there is one, and changes only then; /DA becomes
      the synthesised appearance string when the patch gives a font size or family that
      converts, and changes only then. */
  lemma PatchSetsWidgetKeys(objs: LinkedObjects, a: Ref, patch: Object, py: PyRuntime)
    requires a in objs
    ensures var res := PatchedWidget(objs, a, patch, py);
      var rect := RectArray(PyGet(patch, "rect"), py);
      var tip := LabelText(patch, py);
      var da := DaText(patch, py);
      && Get(res[a], "/Rect") == (if rect.Some? then rect else Get(objs[a], "/Rect"))
      && Get(res[a], "/TU") == (if tip.Some? then Some(PStr(tip.value)) else Get(objs[a], "/TU"))
      && Get(res[a], "/DA") == (if da.Some? then Some(PStr(da.value)) else Get(objs[a], "/DA"))
  {
    var w := Asks(patch, py);
    WriteWidgetOwnKey(objs, a, w, "/Rect", w.rect);
    WriteWidgetOwnKey(objs, a, w, "/TU", TextObj(w.tip));
    WriteWidgetOwnKey(objs, a, w, "/DA", TextObj(w.da));
  }

  lemma WriteWidgetParentKey(objs: LinkedObjects, a: Ref, w: Asked, q: Ref, key: string, v: Option<PdfObj>)
    requires a in objs && q in objs
    requires (key == "/FT" && v == NameObj(w.fieldType)) || (key == "/MaxLen" && v == IntObj(w.maxLen)) || (key == "/Opt" && v == w.opt)
    ensures Get(WriteWidget(objs, a, w)[q], key) == if ParentRef(objs, a) == Some(q) && v.Some? then v else Get(objs[q], key)
  {
    var parent := ParentRef(objs, a);
    WriteWidgetGet(objs, a, w, q, key);
    LastWriteOutside(DaWrites(a, w), a, {"/DA"}, q, key);
    LastWriteOutside(WidgetValueWrites(a, w), a, {"/V", "/DV"}, q, key);
    LastWriteOutside(FrameWrites(a, w), a, {"/Rect", "/TU"}, q, key);
    if parent.Some? {
      LastWriteOutside(ParentValueWrites(parent, w), parent.value, {"/V", "/DV"}, q, key);
      var w1 := Put(parent.value, "/FT", NameObj(w.fieldType));
      var w2 := Put(parent.value, "/MaxLen", IntObj(w.maxLen));
      var w3 := Put(parent.value, "/Opt", w.opt);
      assert ParentWrites(parent, w) == w1 + w2 + w3;
      LastWriteConcat(w1 + w2, w3, q, key);
      LastWriteConcat(w1, w2, q, key);
      PutLast(parent.value, "/FT", NameObj(w.fieldType), q, key);
      PutLast(parent.value, "/MaxLen", IntObj(w.maxLen), q, key);
      PutLast(parent.value, "/Opt", w.opt, q, key);
    }
  }

  /** /FT, /MaxLen and /Opt are written on the parent, each only when the patch yields a value
      for it; without a resolving parent none of them changes anywhere. */
  lemma PatchSetsParentKeys(objs: LinkedObjects, a: Ref, patch: Object, py: PyRuntime, q: Ref)
    requires a in objs && q in objs
    ensures var res := PatchedWidget(objs, a, patch, py);
      var onParent := ParentRef(objs, a) == Some(q);
      var ft := PatchFieldType(patch, py);
      var ml := MaxLenValue(patch);
      var opt := OptObj(PyGet(patch, "options"), py);
      && Get(res[q], "/FT") == (if onParent && ft.Some? then Some(PName(ft.value)) else Get(objs[q], "/FT"))
      && Get(res[q], "/MaxLen") == (if onParent && ml.Some? then Some(PInt(ml.value)) else Get(objs[q], "/MaxLen"))
      && Get(res[q], "/Opt") == (if onParent && opt.Some? then opt else Get(objs[q], "/Opt"))
  {
    var w := Asks(patch, py);
    WriteWidgetParentKey(objs, a, w, q, "/FT", NameObj(w.fieldType));
    WriteWidgetParentKey(objs, a, w, q, "/MaxLen", IntObj(w.maxLen));
    WriteWidgetParentKey(objs, a, w, q, "/Opt", w.opt);
  }

  // ---------------------------------------------------------------- /DA round trip

  lemma BaseFontChars(f: string)
    requires IsBaseFont(f)
    ensures f != [] && DaFontSize.All(f, DaFontSize.IsFontNameChar)
  {
  }

  lemma DaShape(font: string, num: string)
    ensures "0 0 0 rg /" + font + " " + num + " Tf" == "0 0 0 rg " + ("/" + (font + (" " + (num + (" " + ("Tf" + ""))))))
  {
    assert "0 0 0 rg /" == "0 0 0 rg " + "/";
    assert " Tf" == " " + ("Tf" + "");
  }

  lemma DaPrefix(prefix: string, sp: string)
    requires prefix == "0 0 0 rg " && sp == " "
    ensures '/' !in prefix && sp != [] && DaFontSize.All(sp, IsPySpace)
  {
  }

  /** The extractor reads back the size the applier writes: parsing the synthesised /DA string
      yields the value of the clamped size as formatted, whenever the formatter's output is a
      non-empty run of digits and dots. */
  lemma DaStringSizeRoundTrip(size: real, family: Value, py: PyRuntime)
    requires var num := py.fixed1(ClampFontSize(size)); num != [] && DaFontSize.All(num, DaFontSize.IsSizeChar)
    ensures DaFontSize.ParseFontSizeFromDa(Str(BuildDaString(size, family, py)))
      == DaFontSize.SizeValue(py.fixed1(ClampFontSize(size)))
  {
    var font := PdfFontName(family);
    var num := py.fixed1(ClampFontSize(size));
    var da := BuildDaString(size, family, py);
    BaseFontChars(font);
    DaPrefix("0 0 0 rg ", " ");
    DaShape(font, num);
    DaFontSize.SizeOfDa(da, "0 0 0 rg ", font, " ", num, " ", "");
  }
}
