/** The field patch DTO that travels from the editor to the server and on to the apply script
    (src/AcroForm/AcroFormFieldPatch.php). */
module AcroFormFieldPatch {
  import opened Wrappers
  import opened Values

  /** A readonly patch. `rect` and `options` hold PHP arrays (`List` or `Dict`). */
  datatype FieldPatch = FieldPatch(
    fieldId: string,
    rect: Option<Value>,
    defaultValue: Option<string>,
    fieldType: Option<string>,
    labelText: Option<string>,
    controlType: Option<string>,
    options: Option<Value>,
    page: Option<int>,
    hidden: Option<bool>,
    fieldName: Option<string>,
    maxLen: Option<int>,
    fontSize: Option<real>,
    fontFamily: Option<string>)

  /** The message of the `InvalidArgumentException` thrown for a missing or empty id. */
  const FieldIdRequired := "fieldId is required."
  /** The constructor's `string $fieldId` refuses any other type under strict types. */
  const FieldIdTypeError := "TypeError: fieldId must be of type string"

  /** `isset($d[camel]) ? (string) $d[camel] : (isset($d[snake]) ? (string) $d[snake] : null)`. */
  function StringField(d: Object, camel: string, snake: string, php: PhpRuntime): (r: Option<string>)
    ensures PhpIsset(d, camel) ==> r == Some(PhpToString(d[camel], php))
    ensures !PhpIsset(d, camel) && PhpIsset(d, snake) ==> r == Some(PhpToString(d[snake], php))
    ensures r.None? <==> !PhpIsset(d, camel) && !PhpIsset(d, snake)
  {
    if PhpIsset(d, camel) then Some(PhpToString(d[camel], php))
    else if PhpIsset(d, snake) then Some(PhpToString(d[snake], php))
    else None
  }

  /** `isset($d[k]) && is_array($d[k]) ? $d[k] : null`. */
  function ArrayField(d: Object, k: string): (r: Option<Value>)
    ensures r.Some? <==> k in d && PhpIsArray(d[k])
    ensures r.Some? ==> r.value == d[k]
  {
    if PhpIsset(d, k) && PhpIsArray(d[k]) then Some(d[k]) else None
  }

  /** `isset($d[k]) ? (string) $d[k] : null` for a key without a snake-case twin. */
  function OwnStringField(d: Object, k: string, php: PhpRuntime): Option<string> {
    if PhpIsset(d, k) then Some(PhpToString(d[k], php)) else None
  }

  /** The two `(int)` fields: `page` alone, `maxLen` before `max_len`. */
  function IntField(d: Object, camel: string, snake: string, php: PhpRuntime): Option<int> {
    if PhpIsset(d, camel) then Some(PhpToInt(d[camel], php))
    else if PhpIsset(d, snake) then Some(PhpToInt(d[snake], php))
    else None
  }

  function FloatField(d: Object, camel: string, snake: string, php: PhpRuntime): Option<real> {
    if PhpIsset(d, camel) then Some(PhpToFloat(d[camel], php))
    else if PhpIsset(d, snake) then Some(PhpToFloat(d[snake], php))
    else None
  }

  function BoolField(d: Object, k: string): Option<bool> {
    if PhpIsset(d, k) then Some(PhpToBool(d[k])) else None
  }

  /** `$data['fieldId'] ?? $data['field_id'] ?? ''`. */
  function RawFieldId(d: Object): Value {
    PhpCoalesce(d, "fieldId", PhpCoalesce(d, "field_id", Str("")))
  }

  /** `fromArray`: the request array as a patch, or the exception it throws. */
  function FromArray(d: Object, php: PhpRuntime): (r: Result<FieldPatch>)
    ensures RawFieldId(d) == Str("") <==> r == Failure(FieldIdRequired)
    ensures r.Success? <==> RawFieldId(d).Str? && RawFieldId(d).s != ""
    ensures r.Success? ==> r.value.fieldId == RawFieldId(d).s
    ensures r.Success? ==> r.value.rect == ArrayField(d, "rect") && r.value.options == ArrayField(d, "options")
    ensures r.Success? ==> r.value.defaultValue == StringField(d, "defaultValue", "default_value", php)
    ensures r.Success? ==> r.value.fieldName == StringField(d, "fieldName", "field_name", php)
  {
    var id := RawFieldId(d);
    if id == Str("") then Failure(FieldIdRequired)
    else if !id.Str? then Failure(FieldIdTypeError)
    else
      Success(FieldPatch(
        id.s,
        ArrayField(d, "rect"),
        StringField(d, "defaultValue", "default_value", php),
        StringField(d, "fieldType", "field_type", php),
        OwnStringField(d, "label", php),
        StringField(d, "controlType", "control_type", php),
        ArrayField(d, "options"),
        IntField(d, "page", "page", php),
        BoolField(d, "hidden"),
        StringField(d, "fieldName", "field_name", php),
        IntField(d, "maxLen", "max_len", php),
        FloatField(d, "fontSize", "font_size", php),
        StringField(d, "fontFamily", "font_family", php)))
  }

  /** An explicit empty `fieldId` is refused even when `field_id` is set: `??` only skips null. */
  lemma EmptyCamelIdWins(d: Object, php: PhpRuntime)
    requires "fieldId" in d && d["fieldId"] == Str("")
    ensures FromArray(d, php) == Failure(FieldIdRequired)
  {
  }

  /** A patch without any id is refused with the same message. */
  lemma MissingIdIsRefused(d: Object, php: PhpRuntime)
    requires !PhpIsset(d, "fieldId") && !PhpIsset(d, "field_id")
    ensures FromArray(d, php) == Failure(FieldIdRequired)
  {
  }

  /** The snake-case id is used when the camel-case one is absent. */
  lemma SnakeIdIsAccepted(d: Object, id: string, php: PhpRuntime)
    requires !PhpIsset(d, "fieldId") && "field_id" in d && d["field_id"] == Str(id) && id != ""
    ensures FromArray(d, php).Success? && FromArray(d, php).value.fieldId == id
  {
  }

  // ---------------------------------------------------------------- toArray

  /** The thirteen keys of the exported array. */
  datatype Key = FieldIdKey | RectKey | DefaultValueKey | FieldTypeKey | LabelKey | ControlTypeKey | OptionsKey | PageKey | HiddenKey | FieldNameKey | MaxLenKey | FontSizeKey | FontFamilyKey

  function Name(k: Key): string {
    match k
    case FieldIdKey => "fieldId"
    case RectKey => "rect"
    case DefaultValueKey => "defaultValue"
    case FieldTypeKey => "fieldType"
    case LabelKey => "label"
    case ControlTypeKey => "controlType"
    case OptionsKey => "options"
    case PageKey => "page"
    case HiddenKey => "hidden"
    case FieldNameKey => "fieldName"
    case MaxLenKey => "maxLen"
    case FontSizeKey => "fontSize"
    case FontFamilyKey => "fontFamily"
  }

  /** The key named `s`, if `s` is one of the thirteen names. */
  function KeyOf(s: string): (r: Option<Key>)
    ensures r.Some? ==> Name(r.value) == s
  {
    if s == "fieldId" then Some(FieldIdKey)
    else if s == "rect" then Some(RectKey)
    else if s == "defaultValue" then Some(DefaultValueKey)
    else if s == "fieldType" then Some(FieldTypeKey)
    else if s == "label" then Some(LabelKey)
    else if s == "controlType" then Some(ControlTypeKey)
    else if s == "options" then Some(OptionsKey)
    else if s == "page" then Some(PageKey)
    else if s == "hidden" then Some(HiddenKey)
    else if s == "fieldName" then Some(FieldNameKey)
    else if s == "maxLen" then Some(MaxLenKey)
    else if s == "fontSize" then Some(FontSizeKey)
    else if s == "fontFamily" then Some(FontFamilyKey)
    else None
  }

  lemma KeyOfName(k: Key)
    ensures KeyOf(Name(k)) == Some(k)
  {
  }

  lemma NameInjective(j: Key, k: Key)
    ensures Name(j) == Name(k) ==> j == k
  {
    KeyOfName(j);
    KeyOfName(k);
  }

  /** The number of keys, and the order in which `toArray` considers them. */
  const KeyCount := 13

  function KeyAt(i: nat): Key
    requires i < KeyCount
  {
    if i == 0 then FieldIdKey
    else if i == 1 then RectKey
    else if i == 2 then DefaultValueKey
    else if i == 3 then FieldTypeKey
    else if i == 4 then LabelKey
    else if i == 5 then ControlTypeKey
    else if i == 6 then OptionsKey
    else if i == 7 then PageKey
    else if i == 8 then HiddenKey
    else if i == 9 then FieldNameKey
    else if i == 10 then MaxLenKey
    else if i == 11 then FontSizeKey
    else FontFamilyKey
  }

  function Index(k: Key): (i: nat)
    ensures i < KeyCount && KeyAt(i) == k
  {
    match k
    case FieldIdKey => 0
    case RectKey => 1
    case DefaultValueKey => 2
    case FieldTypeKey => 3
    case LabelKey => 4
    case ControlTypeKey => 5
    case OptionsKey => 6
    case PageKey => 7
    case HiddenKey => 8
    case FieldNameKey => 9
    case MaxLenKey => 10
    case FontSizeKey => 11
    case FontFamilyKey => 12
  }

  /** What `toArray` writes under key `k`, if anything: `fieldId` always, an optional field when
      it is not null, `fontFamily` only when also non-empty. */
  function Entry(p: FieldPatch, k: Key): Option<Value> {
    match k
    case FieldIdKey => Some(Str(p.fieldId))
    case RectKey => p.rect
    case DefaultValueKey => StrOf(p.defaultValue)
    case FieldTypeKey => StrOf(p.fieldType)
    case LabelKey => StrOf(p.labelText)
    case ControlTypeKey => StrOf(p.controlType)
    case OptionsKey => p.options
    case PageKey => IntOf(p.page)
    case HiddenKey => if p.hidden.Some? then Some(Bool(p.hidden.value)) else None
    case FieldNameKey => StrOf(p.fieldName)
    case MaxLenKey => IntOf(p.maxLen)
    case FontSizeKey => if p.fontSize.Some? then Some(Float(p.fontSize.value)) else None
    case FontFamilyKey => if p.fontFamily.Some? && p.fontFamily.value != "" then Some(Str(p.fontFamily.value)) else None
  }

  function StrOf(v: Option<string>): Option<Value> {
    if v.Some? then Some(Str(v.value)) else None
  }

  function IntOf(v: Option<int>): Option<Value> {
    if v.Some? then Some(Int(v.value)) else None
  }

  /** `$out[k] = v` when `v !== null`. */
  function Put(out: Object, k: string, v: Option<Value>): Object {
    if v.Some? then out[k := v.value] else out
  }

  /** The array after the first `n` conditional assignments of `toArray`. */
  function Written(p: FieldPatch, n: nat): Object
    requires n <= KeyCount
  {
    if n == 0 then map[] else Put(Written(p, n - 1), Name(KeyAt(n - 1)), Entry(p, KeyAt(n - 1)))
  }

  /** The array `toArray` returns, written in the order of its assignments (split in three
      stretches only to keep the proofs about it small). */
  function Exported(p: FieldPatch): Object {
    Put(Put(Put(Put(ExportedThroughHidden(p), "fieldName", StrOf(p.fieldName)), "maxLen", IntOf(p.maxLen)), "fontSize", if p.fontSize.Some? then Some(Float(p.fontSize.value)) else None), "fontFamily", if p.fontFamily.Some? && p.fontFamily.value != "" then Some(Str(p.fontFamily.value)) else None)
  }

  function ExportedThroughHidden(p: FieldPatch): Object {
    Put(Put(Put(Put(ExportedThroughLabel(p), "controlType", StrOf(p.controlType)), "options", p.options), "page", IntOf(p.page)), "hidden", if p.hidden.Some? then Some(Bool(p.hidden.value)) else None)
  }

  function ExportedThroughLabel(p: FieldPatch): Object {
    Put(Put(Put(Put(map["fieldId" := Str(p.fieldId)], "rect", p.rect), "defaultValue", StrOf(p.defaultValue)), "fieldType", StrOf(p.fieldType)), "label", StrOf(p.labelText))
  }

  /** The exported array is the result of the thirteen steps of `Written`. */
  lemma ExportedIsWritten(p: FieldPatch)
    ensures Exported(p) == Written(p, KeyCount)
  {
    ThroughHiddenIsWritten(p);
    var w := ExportedThroughHidden(p);
    w := Put(w, "fieldName", StrOf(p.fieldName));
    assert Written(p, 10) == w;
    w := Put(w, "maxLen", IntOf(p.maxLen));
    assert Written(p, 11) == w;
    w := Put(w, "fontSize", if p.fontSize.Some? then Some(Float(p.fontSize.value)) else None);
    assert Written(p, 12) == w;
    w := Put(w, "fontFamily", if p.fontFamily.Some? && p.fontFamily.value != "" then Some(Str(p.fontFamily.value)) else None);
    assert Written(p, 13) == w;
  }

  lemma ThroughHiddenIsWritten(p: FieldPatch)
    ensures ExportedThroughHidden(p) == Written(p, 9)
  {
    ThroughLabelIsWritten(p);
    var w := ExportedThroughLabel(p);
    w := Put(w, "controlType", StrOf(p.controlType));
    assert Written(p, 6) == w;
    w := Put(w, "options", p.options);
    assert Written(p, 7) == w;
    w := Put(w, "page", IntOf(p.page));
    assert Written(p, 8) == w;
    w := Put(w, "hidden", if p.hidden.Some? then Some(Bool(p.hidden.value)) else None);
    assert Written(p, 9) == w;
  }

  lemma ThroughLabelIsWritten(p: FieldPatch)
    ensures ExportedThroughLabel(p) == Written(p, 5)
  {
    assert Written(p, 1) == map["fieldId" := Str(p.fieldId)];
    var w := map["fieldId" := Str(p.fieldId)];
    w := Put(w, "rect", p.rect);
    assert Written(p, 2) == w;
    w := Put(w, "defaultValue", StrOf(p.defaultValue));
    assert Written(p, 3) == w;
    w := Put(w, "fieldType", StrOf(p.fieldType));
    assert Written(p, 4) == w;
    w := Put(w, "label", StrOf(p.labelText));
    assert Written(p, 5) == w;
  }

  /** `if ($v !== null) { $out[$k] = $v; }`. */
  method PutIfSet(out: Object, k: string, v: Option<Value>) returns (r: Object)
    ensures r == Put(out, k, v)
  {
    r := out;
    if v.Some? {
      r := r[k := v.value];
    }
  }

  /** `toArray`, one conditional assignment after the other. */
  method ToArray(p: FieldPatch) returns (out: Object)
    ensures out == Exported(p)
  {
    out := map["fieldId" := Str(p.fieldId)];
    out := PutIfSet(out, "rect", p.rect);
    out := PutIfSet(out, "defaultValue", StrOf(p.defaultValue));
    out := PutIfSet(out, "fieldType", StrOf(p.fieldType));
    out := PutIfSet(out, "label", StrOf(p.labelText));
    out := PutIfSet(out, "controlType", StrOf(p.controlType));
    out := PutIfSet(out, "options", p.options);
    out := PutIfSet(out, "page", IntOf(p.page));
    out := PutIfSet(out, "hidden", if p.hidden.Some? then Some(Bool(p.hidden.value)) else None);
    out := PutIfSet(out, "fieldName", StrOf(p.fieldName));
    out := PutIfSet(out, "maxLen", IntOf(p.maxLen));
    out := PutIfSet(out, "fontSize", if p.fontSize.Some? then Some(Float(p.fontSize.value)) else None);
    out := PutIfSet(out, "fontFamily",
      if p.fontFamily.Some? && p.fontFamily.value != "" then Some(Str(p.fontFamily.value)) else None);
  }

  lemma IndexOfKeyAt(i: nat)
    requires i < KeyCount
    ensures Index(KeyAt(i)) == i
  {
  }

  lemma {:induction false} WrittenMembers(p: FieldPatch, n: nat, k: Key)
    requires n <= KeyCount
    ensures Name(k) in Written(p, n) <==> Index(k) < n && Entry(p, k).Some?
    ensures Name(k) in Written(p, n) ==> Written(p, n)[Name(k)] == Entry(p, k).value
  {
    if n > 0 {
      WrittenMembers(p, n - 1, k);
      var j := KeyAt(n - 1);
      NameInjective(j, k);
      IndexOfKeyAt(n - 1);
    }
  }

  lemma {:induction false} WrittenNames(p: FieldPatch, n: nat, s: string)
    requires n <= KeyCount
    ensures s in Written(p, n) ==> KeyOf(s).Some?
  {
    if n > 0 {
      WrittenNames(p, n - 1, s);
      KeyOfName(KeyAt(n - 1));
    }
  }

  /** `toArray` holds a key exactly when the patch has a value for it (always for `fieldId`,
      never for an empty `fontFamily`), holds that value, and holds no other key. */
  lemma ExportedMembers(p: FieldPatch)
    ensures forall k :: Name(k) in Exported(p) <==> Entry(p, k).Some?
    ensures forall k :: Name(k) in Exported(p) ==> Exported(p)[Name(k)] == Entry(p, k).value
    ensures forall s :: s in Exported(p) ==> KeyOf(s).Some?
  {
    ExportedIsWritten(p);
    forall k
      ensures Name(k) in Exported(p) <==> Entry(p, k).Some?
      ensures Name(k) in Exported(p) ==> Exported(p)[Name(k)] == Entry(p, k).value
    {
      WrittenMembers(p, KeyCount, k);
    }
    forall s
      ensures s in Exported(p) ==> KeyOf(s).Some?
    {
      WrittenNames(p, KeyCount, s);
    }
  }

  /** `fieldId` is always exported; an empty `fontFamily` is not. */
  lemma ExportedFieldIdAndFontFamily(p: FieldPatch)
    ensures "fieldId" in Exported(p) && Exported(p)["fieldId"] == Str(p.fieldId)
    ensures p.fontFamily == Some("") ==> "fontFamily" !in Exported(p)
  {
    ExportedMembers(p);
    assert Name(FieldIdKey) == "fieldId" && Name(FontFamilyKey) == "fontFamily";
  }

  /** A patch `fromArray` can build and `toArray` can rebuild: a non-empty id, array-valued
      `rect` and `options`, and no empty `fontFamily`. */
  predicate WellFormed(p: FieldPatch) {
    p.fieldId != ""
    && (p.rect.Some? ==> PhpIsArray(p.rect.value))
    && (p.options.Some? ==> PhpIsArray(p.options.value))
    && p.fontFamily != Some("")
  }

  /** Reading back the exported array gives the same patch. */
  lemma FromArrayOfExported(p: FieldPatch, php: PhpRuntime)
    requires WellFormed(p)
    ensures FromArray(Exported(p), php) == Success(p)
  {
    ExportedMembers(p);
    FromArrayOfEntries(Exported(p), p, php);
  }

  /** None of the snake-case spellings `fromArray` also reads. */
  predicate NoSnakeKeys(d: Object) {
    "field_id" !in d && "default_value" !in d && "field_type" !in d && "control_type" !in d
    && "field_name" !in d && "max_len" !in d && "font_size" !in d && "font_family" !in d
  }

  /** Any array holding exactly the entries of a well-formed patch reads back as that patch. */
  lemma FromArrayOfEntries(d: Object, p: FieldPatch, php: PhpRuntime)
    requires WellFormed(p)
    requires forall k :: Name(k) in d <==> Entry(p, k).Some?
    requires forall k :: Name(k) in d ==> d[Name(k)] == Entry(p, k).value
    requires forall s :: s in d ==> KeyOf(s).Some?
    ensures FromArray(d, php) == Success(p)
  {
    forall s | s in d
      ensures !IsSnake(s)
    {
      NameIsNotSnake(KeyOf(s).value);
    }
    FromArrayOfEntriesIds(d, p, php);
    FromArrayOfEntriesTexts(d, p, php);
    FromArrayOfEntriesFont(d, p, php);
  }

  lemma FromArrayOfEntriesIds(d: Object, p: FieldPatch, php: PhpRuntime)
    requires WellFormed(p)
    requires forall k :: Name(k) in d <==> Entry(p, k).Some?
    requires forall k :: Name(k) in d ==> d[Name(k)] == Entry(p, k).value
    ensures FromArray(d, php).Success?
    ensures var q := FromArray(d, php).value; q.fieldId == p.fieldId && q.rect == p.rect && q.options == p.options && q.labelText == p.labelText && q.page == p.page && q.hidden == p.hidden
  {
    assert Name(FieldIdKey) == "fieldId";
    assert Name(RectKey) == "rect";
    assert Name(OptionsKey) == "options";
    assert Name(LabelKey) == "label";
    assert Name(PageKey) == "page";
    assert Name(HiddenKey) == "hidden";
  }

  lemma FromArrayOfEntriesTexts(d: Object, p: FieldPatch, php: PhpRuntime)
    requires WellFormed(p)
    requires forall k :: Name(k) in d <==> Entry(p, k).Some?
    requires forall k :: Name(k) in d ==> d[Name(k)] == Entry(p, k).value
    requires NoSnakeKeys(d)
    ensures FromArray(d, php).Success?
    ensures var q := FromArray(d, php).value; q.defaultValue == p.defaultValue && q.fieldType == p.fieldType && q.controlType == p.controlType
  {
    assert Name(FieldIdKey) == "fieldId";
    assert Name(DefaultValueKey) == "defaultValue";
    assert Name(FieldTypeKey) == "fieldType";
    assert Name(ControlTypeKey) == "controlType";
  }

  lemma FromArrayOfEntriesFont(d: Object, p: FieldPatch, php: PhpRuntime)
    requires WellFormed(p)
    requires forall k :: Name(k) in d <==> Entry(p, k).Some?
    requires forall k :: Name(k) in d ==> d[Name(k)] == Entry(p, k).value
    requires NoSnakeKeys(d)
    ensures FromArray(d, php).Success?
    ensures var q := FromArray(d, php).value; q.fieldName == p.fieldName && q.maxLen == p.maxLen && q.fontSize == p.fontSize && q.fontFamily == p.fontFamily
  {
    assert Name(FieldIdKey) == "fieldId";
    assert Name(FieldNameKey) == "fieldName";
    assert Name(MaxLenKey) == "maxLen";
    assert Name(FontSizeKey) == "fontSize";
    assert Name(FontFamilyKey) == "fontFamily";
  }

  /** The value types `toArray` writes under each key. */
  predicate Fits(k: Key, v: Value) {
    match k
    case FieldIdKey => v.Str? && v.s != ""
    case RectKey => PhpIsArray(v)
    case DefaultValueKey => v.Str?
    case FieldTypeKey => v.Str?
    case LabelKey => v.Str?
    case ControlTypeKey => v.Str?
    case OptionsKey => PhpIsArray(v)
    case PageKey => v.Int?
    case HiddenKey => v.Bool?
    case FieldNameKey => v.Str?
    case MaxLenKey => v.Int?
    case FontSizeKey => v.Float?
    case FontFamilyKey => v.Str? && v.s != ""
  }

  /** A request array that uses only the camel-case keys, each with the type `toArray` writes. */
  predicate Canonical(d: Object) {
    "fieldId" in d
    && forall s :: s in d ==> KeyOf(s).Some? && Fits(KeyOf(s).value, d[s])
  }

  /** `toArray(fromArray(d))` reproduces every canonical request array. */
  lemma ExportedOfFromArray(d: Object, php: PhpRuntime)
    requires Canonical(d)
    ensures FromArray(d, php).Success? && Exported(FromArray(d, php).value) == d
  {
    assert KeyOf("fieldId") == Some(FieldIdKey);
    var p := FromArray(d, php).value;
    var e := Exported(p);
    ExportedMembers(p);
    forall s | s in e || s in d
      ensures s in e && s in d && e[s] == d[s]
    {
      var k := KeyOf(s).value;
      EntryOfFromArray(d, php, k);
    }
  }

  /** Key by key: `fromArray` followed by `toArray` writes back what a canonical array holds. */
  lemma EntryOfFromArray(d: Object, php: PhpRuntime, k: Key)
    requires Canonical(d)
    ensures FromArray(d, php).Success?
    ensures Entry(FromArray(d, php).value, k) == if Name(k) in d then Some(d[Name(k)]) else None
  {
    CanonicalHasNoSnakeKeys(d);
    KeyOfName(k);
    EntryOfFitting(d, php, k);
  }

  lemma CanonicalHasNoSnakeKeys(d: Object)
    requires Canonical(d)
    ensures NoSnakeKeys(d) && Fits(FieldIdKey, d["fieldId"])
  {
    assert KeyOf("fieldId") == Some(FieldIdKey);
    forall s | s in d
      ensures !IsSnake(s)
    {
      NameIsNotSnake(KeyOf(s).value);
    }
  }

  /** The eight snake-case spellings `fromArray` also accepts. */
  predicate IsSnake(s: string) {
    s == "field_id" || s == "default_value" || s == "field_type" || s == "control_type"
    || s == "field_name" || s == "max_len" || s == "font_size" || s == "font_family"
  }

  lemma NameIsNotSnake(k: Key)
    ensures !IsSnake(Name(k))
  {
  }

  lemma EntryOfFitting(d: Object, php: PhpRuntime, k: Key)
    requires NoSnakeKeys(d) && "fieldId" in d && Fits(FieldIdKey, d["fieldId"])
    requires Name(k) in d ==> Fits(k, d[Name(k)])
    ensures FromArray(d, php).Success?
    ensures Entry(FromArray(d, php).value, k) == if Name(k) in d then Some(d[Name(k)]) else None
  {
    var p := FromArray(d, php).value;
    match k
    case FieldIdKey =>
    case RectKey =>
    case DefaultValueKey =>
    case FieldTypeKey =>
    case LabelKey =>
    case ControlTypeKey =>
    case OptionsKey =>
    case PageKey =>
    case HiddenKey =>
    case FieldNameKey =>
    case MaxLenKey =>
    case FontSizeKey =>
    case FontFamilyKey =>
  }
}
