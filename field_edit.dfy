/** The data class of the AcroForm field edit modal (src/AcroForm/AcroFormFieldEdit.php): public
    fields with defaults, and `fromArray`, which turns a patch or overlay array into the form's
    text inputs (the rect as four numbers, the options as one line per option). */
module AcroFormFieldEdit {
  import opened Wrappers
  import opened Text
  import opened Values

  /** The state of one `AcroFormFieldEdit`, field by field. */
  datatype EditData = EditData(
    fieldId: string, page: Option<int>, labelText: string, controlType: string, rect: string,
    fieldName: string, options: Option<string>, defaultValue: string, defaultChecked: bool,
    checkboxValueOn: string, checkboxValueOff: string, checkboxIcon: string, fontSize: Option<int>,
    fontFamily: string, fontAutoSize: bool, maxLen: Option<int>, hidden: bool, createIfMissing: bool)

  class FieldEdit {
    var fieldId: string
    var page: Option<int>
    var labelText: string
    var controlType: string
    var rect: string
    var fieldName: string
    var options: Option<string>
    var defaultValue: string
    var defaultChecked: bool
    var checkboxValueOn: string
    var checkboxValueOff: string
    var checkboxIcon: string
    var fontSize: Option<int>
    var fontFamily: string
    var fontAutoSize: bool
    var maxLen: Option<int>
    var hidden: bool
    var createIfMissing: bool

    function Data(): EditData
      reads this
    {
      EditData(fieldId, page, labelText, controlType, rect, fieldName, options, defaultValue, defaultChecked,
               checkboxValueOn, checkboxValueOff, checkboxIcon, fontSize, fontFamily, fontAutoSize, maxLen,
               hidden, createIfMissing)
    }

    /** The constructor with the source's defaults; every argument becomes its field. */
    constructor (fieldId: string := "", page: Option<int> := None, labelText: string := "",
                 controlType: string := "text", rect: string := "", fieldName: string := "",
                 options: Option<string> := None, defaultValue: string := "", defaultChecked: bool := false,
                 checkboxValueOn: string := "1", checkboxValueOff: string := "0", checkboxIcon: string := "check",
                 fontSize: Option<int> := None, fontFamily: string := "sans-serif", fontAutoSize: bool := false,
                 maxLen: Option<int> := None, hidden: bool := false, createIfMissing: bool := false)
      ensures Data() == EditData(fieldId, page, labelText, controlType, rect, fieldName, options, defaultValue,
                                 defaultChecked, checkboxValueOn, checkboxValueOff, checkboxIcon, fontSize,
                                 fontFamily, fontAutoSize, maxLen, hidden, createIfMissing)
    {
      this.fieldId := fieldId;
      this.page := page;
      this.labelText := labelText;
      this.controlType := controlType;
      this.rect := rect;
      this.fieldName := fieldName;
      this.options := options;
      this.defaultValue := defaultValue;
      this.defaultChecked := defaultChecked;
      this.checkboxValueOn := checkboxValueOn;
      this.checkboxValueOff := checkboxValueOff;
      this.checkboxIcon := checkboxIcon;
      this.fontSize := fontSize;
      this.fontFamily := fontFamily;
      this.fontAutoSize := fontAutoSize;
      this.maxLen := maxLen;
      this.hidden := hidden;
      this.createIfMissing := createIfMissing;
    }
  }

  /** The state of `new AcroFormFieldEdit()`. The options default is null (the form may submit
      null when the textarea is empty). */
  const Defaults := EditData("", None, "", "text", "", "", None, "", false, "1", "0", "check", None,
                             "sans-serif", false, None, false, false)

  /** `new AcroFormFieldEdit()`. */
  method NewDefault() returns (e: FieldEdit)
    ensures fresh(e) && e.Data() == Defaults
  {
    e := new FieldEdit();
  }

  // ---------------------------------------------------------------- options

  /** The line one entry of `options` contributes: `value|label` for an array with a value and a
      different label, the value alone for an array with a value, a string as it is, and nothing
      for anything else. */
  function OptionLine(o: Value, php: PhpRuntime): Option<string> {
    var e := PhpEntries(o);
    if PhpIsArray(o) && PhpIsset(e, "value") then
      if PhpIsset(e, "label") && e["label"] != e["value"] then
        Some(PhpToString(e["value"], php) + "|" + PhpToString(e["label"], php))
      else Some(PhpToString(e["value"], php))
    else if o.Str? then Some(o.s)
    else None
  }

  /** The lines the `foreach` collects from the first `n` entries. */
  function OptionLines(opts: seq<Value>, n: nat, php: PhpRuntime): seq<string>
    requires n <= |opts|
  {
    if n == 0 then []
    else
      var line := OptionLine(opts[n - 1], php);
      OptionLines(opts, n - 1, php) + (if line.Some? then [line.value] else [])
  }

  /** The options loop of `fromArray` followed by `implode("\n", $lines)`. */
  method OptionsText(opts: seq<Value>, php: PhpRuntime) returns (text: string)
    ensures text == Implode("\n", OptionLines(opts, |opts|, php))
  {
    var lines := [];
    for n := 0 to |opts|
      invariant lines == OptionLines(opts, n, php)
    {
      var o := opts[n];
      if PhpIsArray(o) && PhpIsset(PhpEntries(o), "value") {
        var e := PhpEntries(o);
        if PhpIsset(e, "label") && e["label"] != e["value"] {
          lines := lines + [PhpToString(e["value"], php) + "|" + PhpToString(e["label"], php)];
        } else {
          lines := lines + [PhpToString(e["value"], php)];
        }
      } else if o.Str? {
        lines := lines + [o.s];
      }
    }
    text := Implode("\n", lines);
  }

  /** The lines of a concatenation are the lines of each part. */
  lemma {:induction false} OptionLinesAppend(a: seq<Value>, b: seq<Value>, n: nat, php: PhpRuntime)
    requires n <= |b|
    ensures OptionLines(a + b, |a| + n, php) == OptionLines(a, |a|, php) + OptionLines(b, n, php)
  {
    if n == 0 {
      assert OptionLines(a + b, |a|, php) == OptionLines(a, |a|, php) by { OptionLinesPrefix(a, b, |a|, php); }
    } else {
      OptionLinesAppend(a, b, n - 1, php);
      assert (a + b)[|a| + n - 1] == b[n - 1];
    }
  }

  lemma {:induction false} OptionLinesPrefix(a: seq<Value>, b: seq<Value>, n: nat, php: PhpRuntime)
    requires n <= |a|
    ensures OptionLines(a + b, n, php) == OptionLines(a, n, php)
  {
    if n > 0 {
      OptionLinesPrefix(a, b, n - 1, php);
      assert (a + b)[n - 1] == a[n - 1];
    }
  }

  /** No entry is turned into more than one line, and a list of strings keeps every string. */
  lemma {:induction false} OptionLinesOfStrings(opts: seq<Value>, n: nat, php: PhpRuntime)
    requires n <= |opts|
    ensures |OptionLines(opts, n, php)| <= n
    ensures (forall k :: 0 <= k < n ==> opts[k].Str?) ==>
      |OptionLines(opts, n, php)| == n && forall k :: 0 <= k < n ==> OptionLines(opts, n, php)[k] == opts[k].s
  {
    if n > 0 {
      OptionLinesOfStrings(opts, n - 1, php);
    }
  }

  /** The line of a `{value, label}` entry with string members: `value|label` when they differ,
      the value alone when they are equal or there is no label. */
  lemma OptionLineOfPair(v: string, l: Option<string>, php: PhpRuntime)
    ensures var o := Dict(if l.Some? then map["value" := Str(v), "label" := Str(l.value)] else map["value" := Str(v)]);
      OptionLine(o, php) == Some(if l.Some? && l.value != v then v + "|" + l.value else v)
  {
  }

  /** The textarea gives its lines back when it is split on `\n` (as the modal reads it), provided
      no line holds a line break; an empty list and a list of one empty line both give `''`. */
  lemma OptionsTextSplits(opts: seq<Value>, php: PhpRuntime)
    requires var lines := OptionLines(opts, |opts|, php);
      |lines| >= 1 && forall k :: 0 <= k < |lines| ==> '\n' !in lines[k]
    ensures Split(Implode("\n", OptionLines(opts, |opts|, php)), '\n') == OptionLines(opts, |opts|, php)
  {
    SplitOfImplode(OptionLines(opts, |opts|, php), '\n');
  }

  /** A `value|label` line splits back at the first `|` when the value has none. */
  lemma PairLineSplits(v: string, l: string, php: PhpRuntime)
    requires '|' !in v && l != v
    ensures var line := OptionLine(Dict(map["value" := Str(v), "label" := Str(l)]), php);
      line.Some? && SplitOnce(line.value, '|') == Some((v, l))
  {
    OptionLineOfPair(v, Some(l), php);
    assert v + "|" + l == v + ['|'] + l;
    SplitOnceOf(v, '|', l);
  }

  // ---------------------------------------------------------------- rect

  /** `$r[$i]` of a PHP array: a list's item or the entry under the decimal key; null (with a
      warning) when absent. */
  function Item(r: Value, i: nat): Value {
    match r
    case List(xs) => if i < |xs| then xs[i] else Null
    case Dict(m) => if IntToDecimal(i) in m then m[IntToDecimal(i)] else Null
    case _ => Null
  }

  /** `sprintf('%.1f, %.1f, %.1f, %.1f', ...)`; `fixed1` is `%.1f` of one float. */
  function RectText(r: Value, php: PhpRuntime, fixed1: real -> string): string {
    fixed1(PhpToFloat(Item(r, 0), php)) + ", " + fixed1(PhpToFloat(Item(r, 1), php)) + ", "
      + fixed1(PhpToFloat(Item(r, 2), php)) + ", " + fixed1(PhpToFloat(Item(r, 3), php))
  }

  /** The rect input: the four numbers when `rect` is an array of at least four entries, `''`
      otherwise. */
  function RectField(data: Object, php: PhpRuntime, fixed1: real -> string): string {
    if PhpIsset(data, "rect") && PhpIsArray(data["rect"]) && PhpCount(data["rect"]) >= 4
    then RectText(data["rect"], php, fixed1)
    else ""
  }

  /** The options textarea: the joined lines when `options` is an array, `''` otherwise. */
  function OptionsField(data: Object, php: PhpRuntime): string {
    if PhpIsset(data, "options") && PhpIsArray(data["options"])
    then Implode("\n", OptionLines(PhpValues(data["options"]), |PhpValues(data["options"])|, php))
    else ""
  }

  /** `(string) ($data[$camel] ?? $data[$snake] ?? $default)`. */
  function StringOf(data: Object, camel: string, snake: string, default: string, php: PhpRuntime): string {
    PhpToString(PhpCoalesce(data, camel, PhpCoalesce(data, snake, Str(default))), php)
  }

  /** `isset($data[$k]) ? (int) $data[$k] : null`. */
  function IntOrNull(data: Object, k: string, php: PhpRuntime): Option<int> {
    if PhpIsset(data, k) then Some(PhpToInt(data[k], php)) else None
  }

  /** `(bool) ($data[$k] ?? false)`. */
  predicate BoolOf(data: Object, k: string) {
    PhpToBool(PhpCoalesce(data, k, Bool(false)))
  }

  /** What `fromArray` passes to the constructor. Only fieldId, controlType, fieldName and
      defaultValue read a snake_case spelling. */
  function FromArrayData(data: Object, php: PhpRuntime, fixed1: real -> string): EditData {
    EditData(
      StringOf(data, "fieldId", "field_id", "", php),
      IntOrNull(data, "page", php),
      PhpToString(PhpCoalesce(data, "label", Str("")), php),
      StringOf(data, "controlType", "control_type", "text", php),
      RectField(data, php, fixed1),
      StringOf(data, "fieldName", "field_name", "", php),
      Some(OptionsField(data, php)),
      StringOf(data, "defaultValue", "default_value", "", php),
      BoolOf(data, "defaultChecked"),
      PhpToString(PhpCoalesce(data, "checkboxValueOn", Str("1")), php),
      PhpToString(PhpCoalesce(data, "checkboxValueOff", Str("0")), php),
      PhpToString(PhpCoalesce(data, "checkboxIcon", Str("check")), php),
      IntOrNull(data, "fontSize", php),
      PhpToString(PhpCoalesce(data, "fontFamily", Str("sans-serif")), php),
      BoolOf(data, "fontAutoSize"),
      IntOrNull(data, "maxLen", php),
      BoolOf(data, "hidden"),
      BoolOf(data, "createIfMissing"))
  }

  /** `AcroFormFieldEdit::fromArray` over the PHP array `data`. */
  method FromArray(data: Object, php: PhpRuntime, fixed1: real -> string) returns (e: FieldEdit)
    ensures fresh(e) && e.Data() == FromArrayData(data, php, fixed1)
  {
    var d := FromArrayData(data, php, fixed1);
    var opts := "";
    if PhpIsset(data, "options") && PhpIsArray(data["options"]) {
      opts := OptionsText(PhpValues(data["options"]), php);
    }
    e := new FieldEdit(d.fieldId, d.page, d.labelText, d.controlType, d.rect, d.fieldName, Some(opts),
                       d.defaultValue, d.defaultChecked, d.checkboxValueOn, d.checkboxValueOff, d.checkboxIcon,
                       d.fontSize, d.fontFamily, d.fontAutoSize, d.maxLen, d.hidden, d.createIfMissing);
  }

  // ---------------------------------------------------------------- properties

  /** The camelCase key wins over the snake_case one; the snake_case key is read only when the
      camelCase one is missing or null. */
  lemma CamelBeforeSnake(data: Object, camel: string, snake: string, default: string, php: PhpRuntime)
    ensures PhpIsset(data, camel) ==> StringOf(data, camel, snake, default, php) == PhpToString(data[camel], php)
    ensures !PhpIsset(data, camel) && PhpIsset(data, snake)
            ==> StringOf(data, camel, snake, default, php) == PhpToString(data[snake], php)
    ensures !PhpIsset(data, camel) && !PhpIsset(data, snake) ==> StringOf(data, camel, snake, default, php) == default
  {
  }

  /** The rect input is empty exactly when `rect` is not an array of at least four entries. */
  lemma RectPresence(data: Object, php: PhpRuntime, fixed1: real -> string)
    ensures RectField(data, php, fixed1) == "" <==>
      !(PhpIsset(data, "rect") && PhpIsArray(data["rect"]) && PhpCount(data["rect"]) >= 4)
  {
    if PhpIsset(data, "rect") && PhpIsArray(data["rect"]) && PhpCount(data["rect"]) >= 4 {
      var t := RectField(data, php, fixed1);
      assert |t| >= 6;
    }
  }

  /** A list rect prints its first four numbers; extra entries are ignored. */
  lemma RectOfList(xs: seq<real>, php: PhpRuntime, fixed1: real -> string)
    requires |xs| >= 4
    ensures RectField(map["rect" := List(seq(|xs|, k requires 0 <= k < |xs| => Float(xs[k])))], php, fixed1)
         == fixed1(xs[0]) + ", " + fixed1(xs[1]) + ", " + fixed1(xs[2]) + ", " + fixed1(xs[3])
  {
  }

  /** Without `options` the textarea is `''` (not null, unlike the constructor default), and a
      non-array `options` is ignored. */
  lemma OptionsDefault(data: Object, php: PhpRuntime)
    requires !(PhpIsset(data, "options") && PhpIsArray(data["options"]))
    ensures OptionsField(data, php) == ""
  {
  }

  /** Without the camelCase keys, `fromArray` reads the id, the control type, the field name and
      the default value from their snake_case keys, and the page stays null without `page`. */
  lemma SnakeCaseKeysRead(data: Object, php: PhpRuntime, fixed1: real -> string)
    requires !PhpIsset(data, "fieldId") && !PhpIsset(data, "controlType")
    requires !PhpIsset(data, "fieldName") && !PhpIsset(data, "defaultValue")
    ensures var d := FromArrayData(data, php, fixed1);
      && d.fieldId == (if PhpIsset(data, "field_id") then PhpToString(data["field_id"], php) else "")
      && d.controlType == (if PhpIsset(data, "control_type") then PhpToString(data["control_type"], php) else "text")
      && d.fieldName == (if PhpIsset(data, "field_name") then PhpToString(data["field_name"], php) else "")
      && d.defaultValue == (if PhpIsset(data, "default_value") then PhpToString(data["default_value"], php) else "")
      && (d.page.None? <==> !PhpIsset(data, "page"))
  {
    CamelBeforeSnake(data, "fieldId", "field_id", "", php);
    CamelBeforeSnake(data, "controlType", "control_type", "text", php);
    CamelBeforeSnake(data, "fieldName", "field_name", "", php);
    CamelBeforeSnake(data, "defaultValue", "default_value", "", php);
  }
}
