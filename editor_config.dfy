/** Configuration of the AcroForm editor panel read from the root element's data attributes, and
    the option lists it decodes (assets/acroform-editor/config.ts). `JSON.parse` is a parameter:
    it answers `None` where it throws. */
module EditorConfig {
  import opened Wrappers
  import opened Text
  import opened Values

  /** A label option: the value that is saved and an optional display label. */
  datatype LabelChoice = LabelChoice(value: string, labelText: Option<string>)

  /** The array `JSON.parse` gives for the attribute, or `None` when the attribute is missing or
      empty, does not parse, or is not an array. */
  function ParsedArray(raw: Option<string>, json: string -> Option<Value>): Option<seq<Value>> {
    if raw.None? || raw.value == "" then None
    else match json(raw.value)
      case Some(List(items)) => Some(items)
      case _ => None
  }

  // ---------------------------------------------------------------- label choices

  /** The mapping step of `parseLabelChoices` for one array element. A string splits at its first
      `|` into a trimmed value and a trimmed label, or is value and label at once; an object with
      a `value` key keeps a string value and a string label; anything else has an empty value. */
  function ChoiceOf(item: Value): LabelChoice {
    match item
    case Str(s) =>
      (match SplitOnce(s, '|')
       case Some((v, l)) => LabelChoice(JsTrim(v), Some(JsTrim(l)))
       case None => LabelChoice(JsTrim(s), Some(JsTrim(s))))
    case Dict(m) =>
      if "value" in m then
        LabelChoice(if m["value"].Str? then m["value"].s else "",
                    if "label" in m && m["label"].Str? then Some(m["label"].s) else None)
      else LabelChoice("", Some(""))
    case _ => LabelChoice("", Some(""))
  }

  /** Some element of `items` maps to the choice `c`. */
  predicate MapsTo(items: seq<Value>, c: LabelChoice) {
    exists k :: 0 <= k < |items| && ChoiceOf(items[k]) == c
  }

  /** The `map` then `filter` chain: the choices of the elements, in order, without those whose
      value is empty. */
  function KeepChoices(items: seq<Value>): (r: seq<LabelChoice>)
    ensures |r| <= |items|
    ensures forall k :: 0 <= k < |r| ==> r[k].value != ""
  {
    if items == [] then []
    else
      var c := ChoiceOf(items[0]);
      var rest := KeepChoices(items[1..]);
      if c.value != "" then [c] + rest else rest
  }

  /** Some element maps to `c` when the first one does or some later one does. */
  lemma MapsToStep(items: seq<Value>, c: LabelChoice)
    requires items != []
    ensures MapsTo(items, c) <==> ChoiceOf(items[0]) == c || MapsTo(items[1..], c)
  {
    if MapsTo(items[1..], c) {
      var k :| 0 <= k < |items[1..]| && ChoiceOf(items[1..][k]) == c;
      assert items[k + 1] == items[1..][k];
    }
    if MapsTo(items, c) && ChoiceOf(items[0]) != c {
      var k :| 0 <= k < |items| && ChoiceOf(items[k]) == c;
      assert items[1..][k - 1] == items[k];
    }
  }

  /** A choice is kept exactly when its value is not empty and some element maps to it. */
  lemma {:induction false} KeptChoice(items: seq<Value>, c: LabelChoice)
    ensures c in KeepChoices(items) <==> c.value != "" && MapsTo(items, c)
  {
    if items != [] {
      KeptChoice(items[1..], c);
      MapsToStep(items, c);
    }
  }

  lemma KeptChoices(items: seq<Value>)
    ensures forall c :: c in KeepChoices(items) <==> c.value != "" && MapsTo(items, c)
  {
    forall c {
      KeptChoice(items, c);
    }
  }

  /** `parseLabelChoices`: no choice has an empty value, and a choice is kept exactly when some
      element of the parsed array maps to it. */
  function ParseLabelChoices(raw: Option<string>, json: string -> Option<Value>): (r: seq<LabelChoice>)
    ensures ParsedArray(raw, json).None? ==> r == []
    ensures forall k :: 0 <= k < |r| ==> r[k].value != ""
    ensures ParsedArray(raw, json).Some? ==> var items := ParsedArray(raw, json).value;
      forall c :: c in r <==> c.value != "" && MapsTo(items, c)
  {
    match ParsedArray(raw, json)
    case None => []
    case Some(items) => KeptChoices(items); KeepChoices(items)
  }

  /** `parseFontFamilies` is the same decoding as `parseLabelChoices`. */
  function ParseFontFamilies(raw: Option<string>, json: string -> Option<Value>): (r: seq<LabelChoice>)
    ensures ParsedArray(raw, json).None? ==> r == []
    ensures forall k :: 0 <= k < |r| ==> r[k].value != ""
    ensures ParsedArray(raw, json).Some? ==> var items := ParsedArray(raw, json).value;
      forall c :: c in r <==> c.value != "" && MapsTo(items, c)
  {
    ParseLabelChoices(raw, json)
  }

  /** The `map` then `filter` chain runs over two arrays one after the other. */
  lemma {:induction false} KeepChoicesAppend(xs: seq<Value>, ys: seq<Value>)
    ensures KeepChoices(xs + ys) == KeepChoices(xs) + KeepChoices(ys)
  {
    if xs != [] {
      assert (xs + ys)[0] == xs[0] && (xs + ys)[1..] == xs[1..] + ys;
      KeepChoicesAppend(xs[1..], ys);
    } else {
      assert xs + ys == ys;
    }
  }

  /** The positions of the elements of `items` that `keep` accepts, in increasing order. */
  function Positions(keep: Value -> bool, items: seq<Value>): (ix: seq<nat>)
    ensures forall j :: 0 <= j < |ix| ==> ix[j] < |items|
  {
    if items == [] then []
    else
      var n := |items| - 1;
      Positions(keep, items[..n]) + (if keep(items[n]) then [n] else [])
  }

  /** `Positions` increases. */
  lemma {:induction false} PositionsIncrease(keep: Value -> bool, items: seq<Value>)
    ensures forall i, j :: 0 <= i < j < |Positions(keep, items)| ==> Positions(keep, items)[i] < Positions(keep, items)[j]
  {
    if items != [] {
      var n := |items| - 1;
      PositionsIncrease(keep, items[..n]);
      var ix0 := Positions(keep, items[..n]);
      var ix := Positions(keep, items);
      assert ix == ix0 + (if keep(items[n]) then [n] else []);
      forall i, j | 0 <= i < j < |ix| ensures ix[i] < ix[j] {
        assert i < |ix0| && ix[i] == ix0[i];
        if j < |ix0| {
          assert ix[j] == ix0[j] && ix0[i] < ix0[j];
        } else {
          assert ix[j] == n && ix0[i] < |items[..n]| == n;
        }
      }
    }
  }

  /** Every element that `keep` accepts has its position in `Positions`. */
  lemma {:induction false} PositionsComplete(keep: Value -> bool, items: seq<Value>)
    ensures forall k :: 0 <= k < |items| && keep(items[k]) ==> k in Positions(keep, items)
  {
    if items != [] {
      var n := |items| - 1;
      var init := items[..n];
      PositionsComplete(keep, init);
      var ix0 := Positions(keep, init);
      assert Positions(keep, items) == ix0 + (if keep(items[n]) then [n] else []);
      forall k | 0 <= k < n ensures items[k] == init[k] { }
    }
  }

  /** An element whose choice has a non-empty value, which the `filter` step keeps. */
  predicate HasChoice(item: Value) {
    ChoiceOf(item).value != ""
  }

  function ChoiceIndexes(items: seq<Value>): seq<nat> {
    Positions(HasChoice, items)
  }

  /** The kept choices are the choices of the elements at `ChoiceIndexes`, one per index. */
  lemma {:induction false} KeepChoicesAt(items: seq<Value>)
    ensures var ix := ChoiceIndexes(items); var r := KeepChoices(items);
      && |ix| == |r|
      && (forall j :: 0 <= j < |ix| ==> r[j] == ChoiceOf(items[ix[j]]))
  {
    if items != [] {
      var n := |items| - 1;
      var init := items[..n];
      var c := ChoiceOf(items[n]);
      KeepChoicesAt(init);
      assert items == init + [items[n]];
      KeepChoicesAppend(init, [items[n]]);
      assert [items[n]][1..] == [];
      assert KeepChoices([items[n]]) == if c.value != "" then [c] else [];
      var ix := ChoiceIndexes(init);
      assert ChoiceIndexes(items) == ix + (if c.value != "" then [n] else []);
      forall j | 0 <= j < |ix| ensures items[ix[j]] == init[ix[j]] { }
    }
  }

  /** `parseLabelChoices` keeps the order of the array: its result lists the choices of the
      elements with a non-empty value, at increasing positions, skipping none of them. */
  lemma ParseLabelChoicesInOrder(raw: Option<string>, json: string -> Option<Value>)
    requires ParsedArray(raw, json).Some?
    ensures var items := ParsedArray(raw, json).value; var r := ParseLabelChoices(raw, json);
      var ix := ChoiceIndexes(items);
      && |ix| == |r|
      && (forall j :: 0 <= j < |ix| ==> ix[j] < |items| && r[j] == ChoiceOf(items[ix[j]]))
      && (forall i, j :: 0 <= i < j < |ix| ==> ix[i] < ix[j])
      && (forall k :: 0 <= k < |items| && ChoiceOf(items[k]).value != "" ==> k in ix)
  {
    KeepChoicesAt(ParsedArray(raw, json).value);
    PositionsIncrease(HasChoice, ParsedArray(raw, json).value);
    PositionsComplete(HasChoice, ParsedArray(raw, json).value);
  }

  /** `parseFontFamilies` keeps the order of the array in the same way. */
  lemma ParseFontFamiliesInOrder(raw: Option<string>, json: string -> Option<Value>)
    requires ParsedArray(raw, json).Some?
    ensures var items := ParsedArray(raw, json).value; var r := ParseFontFamilies(raw, json);
      var ix := ChoiceIndexes(items);
      && |ix| == |r|
      && (forall j :: 0 <= j < |ix| ==> ix[j] < |items| && r[j] == ChoiceOf(items[ix[j]]))
      && (forall i, j :: 0 <= i < j < |ix| ==> ix[i] < ix[j])
      && (forall k :: 0 <= k < |items| && ChoiceOf(items[k]).value != "" ==> k in ix)
  {
    ParseLabelChoicesInOrder(raw, json);
  }

  /** A string with a pipe splits at the first one; both halves are trimmed. */
  lemma ChoiceOfPipedString(v: string, l: string)
    requires '|' !in v
    ensures ChoiceOf(Str(v + "|" + l)) == LabelChoice(JsTrim(v), Some(JsTrim(l)))
  {
    SplitOnceOf(v, '|', l);
  }

  /** A string without a pipe is value and label at once. */
  lemma ChoiceOfPlainString(s: string)
    requires '|' !in s
    ensures ChoiceOf(Str(s)) == LabelChoice(JsTrim(s), Some(JsTrim(s)))
  {
  }

  /** An object keeps its string `value`; a missing or non-string label is left undefined. */
  lemma ChoiceOfObject(m: map<string, Value>, v: string)
    requires "value" in m && m["value"] == Str(v)
    requires "label" !in m || !m["label"].Str?
    ensures ChoiceOf(Dict(m)) == LabelChoice(v, None)
  {
  }

  /** Numbers, `null`, lists and objects without a `value` key never produce a choice. */
  lemma ChoiceOfOtherIsDropped(item: Value)
    requires !item.Str? && !(item.Dict? && "value" in item.entries)
    ensures ChoiceOf(item).value == ""
  {
  }

  // ---------------------------------------------------------------- font sizes

  /** The longest run of ASCII digits at the start of `s`. */
  function DigitPrefix(s: string): (r: string)
    ensures |r| <= |s| && r == s[..|r|] && AllDigits(r)
    ensures |r| < |s| ==> !IsDigit(s[|r|])
  {
    if s != [] && IsDigit(s[0]) then [s[0]] + DigitPrefix(s[1..]) else []
  }

  /** `parseInt(s, 10)`: leading white space, an optional sign, then as many decimal digits as
      there are; `None` (NaN) when there is no digit. */
  function JsParseInt(s: string): (r: Option<int>)
    ensures r.Some? ==> exists k :: 0 <= k < |s| && IsDigit(s[k])
  {
    var t := TrimLeft(s, IsJsSpace);
    var signed := t != [] && (t[0] == '-' || t[0] == '+');
    var body := if signed then t[1..] else t;
    var ds := DigitPrefix(body);
    if ds == [] then None
    else
      assert IsDigit(s[|s| - |t| + (if signed then 1 else 0)]);
      Some(if signed && t[0] == '-' then -(DecValue(ds) as int) else DecValue(ds) as int)
  }

  lemma {:induction false} DigitPrefixOfDigits(ds: string, tail: string)
    requires AllDigits(ds)
    requires tail == [] || !IsDigit(tail[0])
    ensures DigitPrefix(ds + tail) == ds
  {
    if ds == [] {
      assert ds + tail == tail;
    } else {
      assert (ds + tail)[1..] == ds[1..] + tail;
      DigitPrefixOfDigits(ds[1..], tail);
    }
  }

  /** A decimal number followed by text that does not start with a digit ("12px") reads as the
      number. */
  lemma JsParseIntOfDecimal(n: nat, tail: string)
    requires tail == [] || !IsDigit(tail[0])
    ensures JsParseInt(NatToDecimal(n) + tail) == Some(n)
  {
    var ds := NatToDecimal(n);
    var s := ds + tail;
    assert s[0] == ds[0];
    JsParseIntOfDigits(s);
    DigitPrefixOfDigits(ds, tail);
    DecValueOfNatToDecimal(n);
  }

  /** Text starting with a digit has no white space or sign to skip. */
  lemma JsParseIntOfDigits(s: string)
    requires s != [] && IsDigit(s[0])
    ensures DigitPrefix(s) != [] && JsParseInt(s) == Some(DecValue(DigitPrefix(s)) as int)
  {
    assert !IsJsSpace(s[0]);
    assert TrimLeft(s, IsJsSpace) == s;
    assert s[0] != '-' && s[0] != '+';
    var ds := DigitPrefix(s);
    assert ds == [s[0]] + DigitPrefix(s[1..]);
  }

  /** JavaScript `Math.round`: halves round up. */
  function JsRound(f: real): int {
    (f + 0.5).Floor
  }

  /** The mapping step of `parseFontSizes`: a number becomes `max(1, round(n))`, a string goes
      through `parseInt`, anything else is NaN (`None`). */
  function FontSizeOf(item: Value): Option<int> {
    match item
    case Int(i) => Some(if i < 1 then 1 else i)
    case Float(f) => Some(if JsRound(f) < 1 then 1 else JsRound(f))
    case Str(s) => JsParseInt(s)
    case _ => None
  }

  predicate KeptSize(item: Value, n: int) {
    FontSizeOf(item) == Some(n) && n >= 1
  }

  /** The `filter` step: NaN and values below 1 are removed, the rest keep their order. */
  function KeepSizes(items: seq<Value>): (r: seq<int>)
    ensures |r| <= |items|
    ensures forall k :: 0 <= k < |r| ==> r[k] >= 1
  {
    if items == [] then []
    else
      var rest := KeepSizes(items[1..]);
      match FontSizeOf(items[0])
      case Some(n) => if n >= 1 then [n] + rest else rest
      case None => rest
  }

  /** Some element is kept as `n`. */
  predicate SomeKept(items: seq<Value>, n: int) {
    exists k :: 0 <= k < |items| && KeptSize(items[k], n)
  }

  lemma SomeKeptStep(items: seq<Value>, n: int)
    requires items != []
    ensures SomeKept(items, n) <==> KeptSize(items[0], n) || SomeKept(items[1..], n)
  {
    if SomeKept(items[1..], n) {
      var k :| 0 <= k < |items[1..]| && KeptSize(items[1..][k], n);
      assert items[k + 1] == items[1..][k];
    }
    if SomeKept(items, n) && !KeptSize(items[0], n) {
      var k :| 0 <= k < |items| && KeptSize(items[k], n);
      assert items[1..][k - 1] == items[k];
    }
  }

  /** A size is kept exactly when some element maps to it. */
  lemma {:induction false} KeptSizeIff(items: seq<Value>, n: int)
    ensures n in KeepSizes(items) <==> SomeKept(items, n)
  {
    if items != [] {
      KeptSizeIff(items[1..], n);
      SomeKeptStep(items, n);
    }
  }

  /** Numbers are never dropped. */
  lemma {:induction false} NumbersAreKept(items: seq<Value>)
    requires forall k :: 0 <= k < |items| ==> items[k].Int? || items[k].Float?
    ensures |KeepSizes(items)| == |items|
  {
    if items != [] {
      assert forall k :: 0 <= k < |items[1..]| ==> items[1..][k] == items[k + 1];
      NumbersAreKept(items[1..]);
    }
  }

  lemma KeptSizes(items: seq<Value>)
    ensures forall n :: n in KeepSizes(items) <==> SomeKept(items, n)
    ensures (forall k :: 0 <= k < |items| ==> items[k].Int? || items[k].Float?) ==> |KeepSizes(items)| == |items|
  {
    forall n {
      KeptSizeIff(items, n);
    }
    if forall k :: 0 <= k < |items| ==> items[k].Int? || items[k].Float? {
      NumbersAreKept(items);
    }
  }

  /** `parseFontSizes`: every size is at least 1, a number is never dropped, and a size is kept
      exactly when some element of the parsed array maps to it. */
  function ParseFontSizes(raw: Option<string>, json: string -> Option<Value>): (r: seq<int>)
    ensures ParsedArray(raw, json).None? ==> r == []
    ensures forall k :: 0 <= k < |r| ==> r[k] >= 1
    ensures ParsedArray(raw, json).Some? ==> var items := ParsedArray(raw, json).value;
      (forall n :: n in r <==> SomeKept(items, n))
      && ((forall k :: 0 <= k < |items| ==> items[k].Int? || items[k].Float?) ==> |r| == |items|)
  {
    match ParsedArray(raw, json)
    case None => []
    case Some(items) => KeptSizes(items); KeepSizes(items)
  }

  /** The size filter runs over two arrays one after the other. */
  lemma {:induction false} KeepSizesAppend(xs: seq<Value>, ys: seq<Value>)
    ensures KeepSizes(xs + ys) == KeepSizes(xs) + KeepSizes(ys)
  {
    if xs != [] {
      assert (xs + ys)[0] == xs[0] && (xs + ys)[1..] == xs[1..] + ys;
      KeepSizesAppend(xs[1..], ys);
    } else {
      assert xs + ys == ys;
    }
  }

  /** An element that yields a size of at least 1, which the `filter` step keeps. */
  predicate HasSize(item: Value) {
    FontSizeOf(item).Some? && FontSizeOf(item).value >= 1
  }

  function SizeIndexes(items: seq<Value>): seq<nat> {
    Positions(HasSize, items)
  }

  /** The kept sizes are those of the elements at `SizeIndexes`, one per index. */
  lemma {:induction false} KeepSizesAt(items: seq<Value>)
    ensures var ix := SizeIndexes(items); var r := KeepSizes(items);
      && |ix| == |r|
      && (forall j :: 0 <= j < |ix| ==> Some(r[j]) == FontSizeOf(items[ix[j]]))
  {
    if items != [] {
      var n := |items| - 1;
      var init := items[..n];
      var kept := FontSizeOf(items[n]).Some? && FontSizeOf(items[n]).value >= 1;
      KeepSizesAt(init);
      assert items == init + [items[n]];
      KeepSizesAppend(init, [items[n]]);
      assert [items[n]][1..] == [];
      assert KeepSizes([items[n]]) == if kept then [FontSizeOf(items[n]).value] else [];
      var ix := SizeIndexes(init);
      assert SizeIndexes(items) == ix + (if kept then [n] else []);
      forall j | 0 <= j < |ix| ensures items[ix[j]] == init[ix[j]] { }
    }
  }

  /** `parseFontSizes` keeps the order of the array: its result lists the sizes of the elements
      that yield one of at least 1, at increasing positions, skipping none of them. */
  lemma ParseFontSizesInOrder(raw: Option<string>, json: string -> Option<Value>)
    requires ParsedArray(raw, json).Some?
    ensures var items := ParsedArray(raw, json).value; var r := ParseFontSizes(raw, json);
      var ix := SizeIndexes(items);
      && |ix| == |r|
      && (forall j :: 0 <= j < |ix| ==> ix[j] < |items| && Some(r[j]) == FontSizeOf(items[ix[j]]))
      && (forall i, j :: 0 <= i < j < |ix| ==> ix[i] < ix[j])
      && (forall k :: 0 <= k < |items| && FontSizeOf(items[k]).Some? && FontSizeOf(items[k]).value >= 1 ==> k in ix)
  {
    KeepSizesAt(ParsedArray(raw, json).value);
    PositionsIncrease(HasSize, ParsedArray(raw, json).value);
    PositionsComplete(HasSize, ParsedArray(raw, json).value);
  }

  /** A number always yields a size of at least 1: an integer below 1 becomes 1, a larger one
      stays; a fraction rounds to the nearest integer (halves up), and one below 0.5 becomes 1. */
  lemma FontSizeOfNumber(item: Value)
    requires item.Int? || item.Float?
    ensures FontSizeOf(item).Some? && FontSizeOf(item).value >= 1
    ensures item.Int? ==> FontSizeOf(item).value == if item.i < 1 then 1 else item.i
    ensures item.Float? && item.f < 0.5 ==> FontSizeOf(item).value == 1
    ensures item.Float? && item.f >= 0.5 ==>
      FontSizeOf(item).value as real - 0.5 <= item.f < FontSizeOf(item).value as real + 0.5
  {
    if item.Float? {
      var n := JsRound(item.f);
      assert n as real <= item.f + 0.5 < n as real + 1.0;
      if item.f >= 0.5 {
        assert n >= 1;
      } else {
        assert n < 1;
      }
    }
  }

  /** A string without a digit is NaN and is dropped. */
  lemma FontSizeOfWordless(s: string)
    requires forall k :: 0 <= k < |s| ==> !IsDigit(s[k])
    ensures FontSizeOf(Str(s)) == None && !HasSize(Str(s))
  {
  }

  // ---------------------------------------------------------------- getConfig

  /** The `data-*` attributes of the root element that are present. */
  type Dataset = map<string, string>

  datatype FieldNameMode = InputMode | ChoiceMode

  datatype EditorConfig = EditorConfig(
    loadUrl: string,
    postUrl: string,
    documentKey: string,
    applyUrl: string,
    processUrl: string,
    debug: bool,
    fieldNameMode: FieldNameMode,
    fieldNameChoices: seq<LabelChoice>,
    fieldNameOtherText: string,
    showFieldRect: bool,
    fontSizes: seq<int>,
    fontFamilies: seq<LabelChoice>)

  function Attr(ds: Dataset, key: string): Option<string> {
    if key in ds then Some(ds[key]) else None
  }

  /** `getConfig`: URLs and the key default to the empty string; `debug` is on only for "1" and
      "true"; the mode is `choice` only for exactly "choice"; the rectangle is shown unless the
      attribute is "0" or "false"; the "Other" text is trimmed. */
  function GetConfig(ds: Dataset, json: string -> Option<Value>): (c: EditorConfig)
    ensures c.debug <==> Attr(ds, "debug") in {Some("1"), Some("true")}
    ensures c.fieldNameMode == ChoiceMode <==> Attr(ds, "fieldNameMode") == Some("choice")
    ensures !c.showFieldRect <==> Attr(ds, "showFieldRect") in {Some("0"), Some("false")}
    ensures "loadUrl" !in ds ==> c.loadUrl == ""
    ensures "documentKey" in ds ==> c.documentKey == ds["documentKey"]
  {
    EditorConfig(
      Attr(ds, "loadUrl").GetOr(""),
      Attr(ds, "postUrl").GetOr(""),
      Attr(ds, "documentKey").GetOr(""),
      Attr(ds, "applyUrl").GetOr(""),
      Attr(ds, "processUrl").GetOr(""),
      Attr(ds, "debug") == Some("1") || Attr(ds, "debug") == Some("true"),
      if Attr(ds, "fieldNameMode") == Some("choice") then ChoiceMode else InputMode,
      ParseLabelChoices(Attr(ds, "fieldNameChoices"), json),
      if "fieldNameOtherText" in ds then JsTrim(ds["fieldNameOtherText"]) else "",
      Attr(ds, "showFieldRect") != Some("0") && Attr(ds, "showFieldRect") != Some("false"),
      ParseFontSizes(Attr(ds, "fontSizes"), json),
      ParseFontFamilies(Attr(ds, "fontFamilies"), json))
  }

  /** The "Other" text is the trimmed attribute, or empty when the attribute is missing. */
  lemma OtherTextIsTrimmed(ds: Dataset, json: string -> Option<Value>)
    ensures GetConfig(ds, json).fieldNameOtherText == JsTrim(Attr(ds, "fieldNameOtherText").GetOr(""))
  {
    if "fieldNameOtherText" !in ds {
      assert JsTrim("") == "";
    }
  }

  /** With no attributes at all the panel uses free-text names, shows the rectangle and does not
      log. */
  lemma GetConfigDefaults(json: string -> Option<Value>)
    ensures var c := GetConfig(map[], json);
      c.fieldNameMode == InputMode && c.showFieldRect && !c.debug
      && c.fieldNameChoices == [] && c.fontSizes == [] && c.fontFamilies == []
  {
  }
}
