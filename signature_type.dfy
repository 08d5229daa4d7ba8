/** The signature-coordinates form type: its unit and origin lists, the box comparator used when
    boxes are sorted, the unique-name and no-overlap checks on the submitted collection, the
    box builder those checks use, the named-config merge and the choice lists
    (src/Form/SignatureCoordinatesType.php). */
module SignatureType {
  import opened Wrappers
  import opened Text
  import opened Values
  import BoxDrag
  import SignableUtils

  // ---------------------------------------------------------------- units and origins

  const AllUnits: seq<string> := ["pt", "mm", "cm", "px", "in"]
  const AllOrigins: seq<string> := ["top_left", "bottom_left", "top_right", "bottom_right"]

  /** Five distinct units, each of which the editor can convert (they are exactly the units of the
      editor's factor table). */
  lemma AllUnitsAreTheEditorUnits()
    ensures |AllUnits| == 5
    ensures forall i, j :: 0 <= i < j < |AllUnits| ==> AllUnits[i] != AllUnits[j]
    ensures forall u :: u in AllUnits <==> SignableUtils.PtToUnitFactor(u).Some?
  {
  }

  // ---------------------------------------------------------------- boxes

  /** A signature box: the fields of the box model (page 1, empty name, corner at 0, 150 by 40 by
      default) and the rotation angle the box builder sets (0 by default). */
  datatype SignatureBox = SignatureBox(
    page: int, name: string, x: real, y: real, width: real, height: real, angle: real)

  const DefaultBox := SignatureBox(1, "", 0.0, 0.0, 150.0, 40.0, 0.0)

  /** An entry of the submitted collection: a box model, or raw submitted data. */
  datatype BoxItem = Model(box: SignatureBox) | Raw(data: Value)

  /** `boxesOverlap`: same page and strict overlap on both axes. */
  predicate BoxesOverlap(a: SignatureBox, b: SignatureBox) {
    a.page == b.page
    && a.x < b.x + b.width && b.x < a.x + a.width
    && a.y < b.y + b.height && b.y < a.y + a.height
  }

  function Bounds(b: SignatureBox): BoxDrag.BoxBounds {
    BoxDrag.BoxBounds(b.page, b.x, b.y, b.width, b.height)
  }

  /** The server-side check and the editor's check agree on every pair of boxes. */
  lemma BoxesOverlapAgreesWithEditor(a: SignatureBox, b: SignatureBox)
    ensures BoxesOverlap(a, b) == BoxDrag.BoxesOverlap(Bounds(a), Bounds(b))
  {
  }

  lemma BoxesOverlapSymmetric(a: SignatureBox, b: SignatureBox)
    ensures BoxesOverlap(a, b) == BoxesOverlap(b, a)
  {
    BoxesOverlapAgreesWithEditor(a, b);
    BoxesOverlapAgreesWithEditor(b, a);
    BoxDrag.BoxesOverlapSymmetric(Bounds(a), Bounds(b));
  }

  /** Boxes on different pages never overlap; boxes that only touch at an edge do not overlap. */
  lemma BoxesOverlapEdges(a: SignatureBox, b: SignatureBox)
    ensures a.page != b.page ==> !BoxesOverlap(a, b)
    ensures b.x == a.x + a.width || b.y == a.y + a.height ==> !BoxesOverlap(a, b)
  {
  }

  /** `boxFromArray`: a box only when page, x, y, width and height are all set (present and not
      null); the name when it is set; the angle whenever its key exists, even with a null value. */
  function BoxFromArray(m: Object, php: PhpRuntime): (r: Option<SignatureBox>)
    ensures r.Some? <==> PhpIsset(m, "page") && PhpIsset(m, "x") && PhpIsset(m, "y")
                         && PhpIsset(m, "width") && PhpIsset(m, "height")
    ensures r.Some? ==> r.value.page == PhpToInt(m["page"], php) && r.value.x == PhpToFloat(m["x"], php)
                        && r.value.y == PhpToFloat(m["y"], php) && r.value.width == PhpToFloat(m["width"], php)
                        && r.value.height == PhpToFloat(m["height"], php)
    ensures r.Some? ==> r.value.name == (if PhpIsset(m, "name") then PhpToString(m["name"], php) else "")
    ensures r.Some? ==> r.value.angle == (if "angle" in m then PhpToFloat(m["angle"], php) else 0.0)
  {
    if !(PhpIsset(m, "page") && PhpIsset(m, "x") && PhpIsset(m, "y")
         && PhpIsset(m, "width") && PhpIsset(m, "height")) then None
    else
      var b := DefaultBox.(page := PhpToInt(m["page"], php), x := PhpToFloat(m["x"], php),
                           y := PhpToFloat(m["y"], php), width := PhpToFloat(m["width"], php),
                           height := PhpToFloat(m["height"], php));
      var b := if PhpIsset(m, "name") then b.(name := PhpToString(m["name"], php)) else b;
      Some(if "angle" in m then b.(angle := PhpToFloat(m["angle"], php)) else b)
  }

  /** A box without one of the five required keys is not built, whatever else it holds. */
  lemma BoxFromArrayNeedsAllKeys(php: PhpRuntime)
    ensures BoxFromArray(map[], php).None?
    ensures BoxFromArray(map["page" := Int(1)], php).None?
    ensures BoxFromArray(map["page" := Int(1), "x" := Float(0.0), "y" := Float(0.0),
                             "width" := Float(50.0), "height" := Null], php).None?
  {
  }

  /** The box the overlap check sees for an entry: a model as it is, an array through the
      builder, anything else through the builder of an empty array (so never). */
  function AsBox(item: BoxItem, php: PhpRuntime): Option<SignatureBox> {
    match item
    case Model(b) => Some(b)
    case Raw(Dict(m)) => BoxFromArray(m, php)
    case Raw(_) => BoxFromArray(map[], php)
  }

  // ---------------------------------------------------------------- sorting comparator

  /** What the comparator reads from an entry: page, y and x, with 0 for missing values and for
      entries that are neither arrays nor box models. */
  datatype SortKey = SortKey(page: int, y: real, x: real)

  function KeyOf(item: BoxItem, php: PhpRuntime): SortKey {
    match item
    case Model(b) => SortKey(b.page, b.y, b.x)
    case Raw(v) =>
      if PhpIsArray(v) then
        var m := if v.Dict? then v.entries else map[];
        SortKey(PhpToInt(PhpCoalesce(m, "page", Int(0)), php),
                PhpToFloat(PhpCoalesce(m, "y", Int(0)), php),
                PhpToFloat(PhpCoalesce(m, "x", Int(0)), php))
      else SortKey(0, 0.0, 0.0)
  }

  /** PHP's `<=>` on numbers. */
  function Spaceship(a: real, b: real): int {
    if a < b then -1 else if a > b then 1 else 0
  }

  function Abs(r: real): real { if r < 0.0 then -r else r }

  /** The comparator: page first, then y where the two differ by more than 0.0001, then x. */
  function CompareKeys(a: SortKey, b: SortKey): (c: int)
    ensures -1 <= c <= 1
    ensures a.page < b.page ==> c == -1
    ensures a.page > b.page ==> c == 1
    ensures a.page == b.page && b.y - a.y > 0.0001 ==> c == -1
    ensures a.page == b.page && Abs(a.y - b.y) <= 0.0001 ==> c == Spaceship(a.x, b.x)
  {
    if a.page != b.page then Spaceship(a.page as real, b.page as real)
    else if Abs(a.y - b.y) > 0.0001 then Spaceship(a.y, b.y)
    else Spaceship(a.x, b.x)
  }

  function CompareBoxes(a: BoxItem, b: BoxItem, php: PhpRuntime): int {
    CompareKeys(KeyOf(a, php), KeyOf(b, php))
  }

  /** The comparator is antisymmetric and every key is equal to itself. */
  lemma CompareKeysAntisymmetric(a: SortKey, b: SortKey)
    ensures CompareKeys(a, b) == -CompareKeys(b, a)
    ensures CompareKeys(a, a) == 0
  {
  }

  /** The tolerance on y makes the comparator intransitive: three boxes 0.00006 apart in y are
      pairwise "level" with their neighbours but not with each other, so the order by x and the
      order by y contradict each other. */
  lemma CompareKeysNotTransitive()
    ensures var a, b, c := SortKey(1, 0.0, 2.0), SortKey(1, 0.00006, 1.0), SortKey(1, 0.00012, 0.0);
      CompareKeys(a, b) == 1 && CompareKeys(b, c) == 1 && CompareKeys(a, c) == -1
  {
  }

  // ---------------------------------------------------------------- unique names

  /** The trimmed name the unique-name check looks at: only box models, only non-empty names, and
      when an enforced-name list is given only names in it. */
  function CheckedName(item: BoxItem, enforce: Option<set<string>>): Option<string> {
    if !item.Model? then None
    else
      var n := PhpTrim(item.box.name);
      if n == "" || (enforce.Some? && n !in enforce.value) then None else Some(n)
  }

  /** The option value: `true` checks every name, a list checks its trimmed entries. */
  function EnforcedNames(names: seq<string>): (r: set<string>)
    ensures forall n :: n in r <==> exists k :: 0 <= k < |names| && PhpTrim(names[k]) == n
  {
    set k | 0 <= k < |names| :: PhpTrim(names[k])
  }

  /** The checked name of every entry. */
  function CheckedNames(boxes: seq<BoxItem>, enforce: Option<set<string>>): (r: seq<Option<string>>)
    ensures |r| == |boxes|
    ensures forall k {:trigger CheckedName(boxes[k], enforce)} :: 0 <= k < |boxes| ==> r[k] == CheckedName(boxes[k], enforce)
  {
    if boxes == [] then []
    else [CheckedName(boxes[0], enforce)] + CheckedNames(boxes[1..], enforce)
  }

  /** One of the first `i` names is `n`. */
  predicate SeenBefore(names: seq<Option<string>>, i: int, n: string) {
    exists j :: 0 <= j < i && j < |names| && names[j] == Some(n)
  }

  /** Entry `k` repeats a checked name that an earlier entry already has. */
  predicate RepeatedName(names: seq<Option<string>>, k: int)
    requires 0 <= k < |names|
  {
    names[k].Some? && SeenBefore(names, k, names[k].value)
  }

  predicate Increasing(s: seq<nat>) {
    forall p, q :: 0 <= p < q < |s| ==> s[p] < s[q]
  }

  /** The unique-name callback: every entry's name is checked (trimmed, filtered by
      `enforce`), then the repeated ones are reported. */
  method UniqueNameViolations(boxes: seq<BoxItem>, enforce: Option<set<string>>) returns (violations: seq<nat>)
    ensures var names := CheckedNames(boxes, enforce);
      forall k :: k in violations <==> 0 <= k < |names| && RepeatedName(names, k)
    ensures Increasing(violations)
  {
    violations := RepeatedNames(CheckedNames(boxes, enforce));
  }

  /** The loop of the unique-name callback over the checked names: remembers the first index of
      each name and reports every later entry with a name already seen. */
  method RepeatedNames(names: seq<Option<string>>) returns (violations: seq<nat>)
    ensures forall k :: k in violations <==> 0 <= k < |names| && RepeatedName(names, k)
    ensures Increasing(violations)
  {
    var seen: map<string, nat> := map[];
    violations := [];
    for i := 0 to |names|
      invariant forall n :: n in seen <==> SeenBefore(names, i, n)
      invariant forall k :: k in violations <==> 0 <= k < i && RepeatedName(names, k)
      invariant Increasing(violations)
      invariant forall k :: k in violations ==> k < i
    {
      var name := names[i];
      assert forall n :: SeenBefore(names, i + 1, n) <==> SeenBefore(names, i, n) || name == Some(n);
      if name.Some? {
        if name.value in seen {
          assert RepeatedName(names, i);
          assert forall p :: 0 <= p < |violations| ==> violations[p] in violations;
          violations := violations + [i];
        } else {
          seen := seen[name.value := i];
        }
      }
    }
  }

  // ---------------------------------------------------------------- overlap

  /** The `$list` of the overlap callback: the position and the box of every entry that yields a
      box, in order. */
  function Listed(boxes: seq<BoxItem>, php: PhpRuntime): (list: seq<(nat, SignatureBox)>)
    ensures forall p :: 0 <= p < |list| ==> list[p].0 < |boxes| && AsBox(boxes[list[p].0], php) == Some(list[p].1)
  {
    if boxes == [] then []
    else
      var n := |boxes| - 1;
      var init := Listed(boxes[..n], php);
      assert forall k :: 0 <= k < n ==> boxes[..n][k] == boxes[k];
      match AsBox(boxes[n], php)
      case Some(b) =>
        var list := init + [(n, b)];
        assert list[|init|].0 == n;
        assert forall p :: 0 <= p < |init| ==> list[p] == init[p];
        list
      case None => init
  }

  lemma ListedStep(boxes: seq<BoxItem>, php: PhpRuntime, k: nat)
    requires k < |boxes|
    ensures Listed(boxes[..k + 1], php)
      == Listed(boxes[..k], php) + (if AsBox(boxes[k], php).Some? then [(k, AsBox(boxes[k], php).value)] else [])
  {
    assert boxes[..k + 1][..k] == boxes[..k];
  }

  /** The pair test of the overlap callback: same page and overlapping rectangles. */
  type PairTest = (SignatureBox, SignatureBox) -> bool

  /** What the inner loop of row `i` has reported once it reached `j`, for the pair test `hit`. */
  function RowReports(list: seq<(nat, SignatureBox)>, hit: PairTest, i: nat, j: nat): seq<nat>
    requires i < |list| && j <= |list|
    decreases j
  {
    if j <= i + 1 then []
    else RowReports(list, hit, i, j - 1) + (if hit(list[i].1, list[j - 1].1) then [list[j - 1].0] else [])
  }

  /** What the outer loop has reported once it reached row `i`. */
  function PairReports(list: seq<(nat, SignatureBox)>, hit: PairTest, i: nat): seq<nat>
    requires i <= |list|
  {
    if i == 0 then [] else PairReports(list, hit, i - 1) + RowReports(list, hit, i - 1, |list|)
  }

  /** The overlap callback: collects the boxes, then for every pair `i < j` of the list on the
      same page that overlaps reports the position of the later box. */
  method OverlapViolations(boxes: seq<BoxItem>, php: PhpRuntime) returns (violations: seq<nat>)
    ensures var list := Listed(boxes, php); violations == PairReports(list, BoxesOverlap, |list|)
  {
    var list := CollectBoxes(boxes, php);
    violations := ScanPairs(list);
  }

  /** The first loop of the overlap callback: the entries that yield a box, with their position. */
  method CollectBoxes(boxes: seq<BoxItem>, php: PhpRuntime) returns (list: seq<(nat, SignatureBox)>)
    ensures list == Listed(boxes, php)
  {
    list := [];
    for k := 0 to |boxes|
      invariant list == Listed(boxes[..k], php)
    {
      ListedStep(boxes, php, k);
      var b := AsBox(boxes[k], php);
      if b.Some? {
        list := list + [(k, b.value)];
      }
    }
    assert boxes[..|boxes|] == boxes;
  }

  /** The nested loops of the overlap callback over the collected list. */
  method ScanPairs(list: seq<(nat, SignatureBox)>) returns (violations: seq<nat>)
    ensures violations == PairReports(list, BoxesOverlap, |list|)
  {
    violations := [];
    for i := 0 to |list|
      invariant violations == PairReports(list, BoxesOverlap, i)
    {
      var row := ScanRow(list, i);
      violations := violations + row;
    }
  }

  /** The inner loop of row `i`: the later boxes on the same page that overlap box `i`. */
  method ScanRow(list: seq<(nat, SignatureBox)>, i: nat) returns (row: seq<nat>)
    requires i < |list|
    ensures row == RowReports(list, BoxesOverlap, i, |list|)
  {
    row := [];
    for j := i + 1 to |list|
      invariant row == RowReports(list, BoxesOverlap, i, j)
    {
      var a, b := list[i].1, list[j].1;
      if a.page != b.page {
        BoxesOverlapEdges(a, b);
        continue;
      }
      if BoxesOverlap(a, b) {
        row := row + [list[j].0];
      }
    }
  }

  // ---------------------------------------------------------------- named configs and choices

  /** The key PHP looks a config name up under: a non-empty string as it is, an integer (and
      a boolean or a float, which PHP turns into an integer key) as its decimal form; null, the
      empty string and an array name no config. */
  function ConfigKey(name: Value): (k: Option<string>)
    ensures name.Str? ==> (k.Some? <==> name.s != "") && (k.Some? ==> k.value == name.s)
    ensures name.Int? ==> k == Some(IntToDecimal(name.i))
    ensures name.Null? || PhpIsArray(name) ==> k.None?
  {
    match name
    case Str(s) => if s == "" then None else Some(s)
    case Int(i) => Some(IntToDecimal(i))
    case Bool(b) => Some(if b then "1" else "0")
    case Float(f) => Some(IntToDecimal(Truncate(f)))
    case _ => None
  }

  /** `mergeNamedConfig`: with a config name that names an array (a list or an associative
      one), the named config is the base and the passed options override it, and the `config`
      key is dropped; otherwise the options are returned unchanged. */
  function MergeNamedConfig(options: Object, named: map<string, Value>): (r: Object)
    ensures var key := ConfigKey(PhpCoalesce(options, "config", Null));
      !(key.Some? && key.value in named && PhpIsArray(named[key.value])) ==> r == options
    ensures var key := ConfigKey(PhpCoalesce(options, "config", Null));
      key.Some? && key.value in named && PhpIsArray(named[key.value]) ==>
        var base := PhpEntries(named[key.value]);
        && "config" !in r
        && (forall k :: k in options && k != "config" ==> k in r && r[k] == options[k])
        && (forall k :: k in base && k !in options && k != "config" ==> k in r && r[k] == base[k])
        && (forall k :: k in r ==> k in options || k in base)
  {
    var key := ConfigKey(PhpCoalesce(options, "config", Null));
    if key.Some? && key.value in named && PhpIsArray(named[key.value]) then
      (PhpEntries(named[key.value]) + options) - {"config"}
    else options
  }

  /** The translation key of each unit's label. */
  const UnitLabels: map<string, string> := map[
    "pt" := "signature_coordinates_type.unit.option.pt",
    "mm" := "signature_coordinates_type.unit.option.mm",
    "cm" := "signature_coordinates_type.unit.option.cm",
    "px" := "signature_coordinates_type.unit.option.px",
    "in" := "signature_coordinates_type.unit.option.in"]

  function LabelOf(labels: map<string, string>, v: string): string {
    if v in labels then labels[v] else v
  }

  /** The choice map after the first `n` values: each value written under its label, later
      values overwriting earlier ones with the same label. */
  function ChoicesOf(labels: map<string, string>, values: seq<string>): (r: map<string, string>)
    ensures forall key :: key in r <==> exists k :: 0 <= k < |values| && LabelOf(labels, values[k]) == key
    ensures forall key :: key in r ==> LabelOf(labels, r[key]) == key
  {
    if values == [] then map[]
    else
      var n := |values| - 1;
      assert forall k :: 0 <= k < n ==> values[..n][k] == values[k];
      ChoicesOf(labels, values[..n])[LabelOf(labels, values[n]) := values[n]]
  }

  /** `buildUnitChoices` (and `buildOriginChoices` with the origin labels): label to value. */
  method BuildChoices(labels: map<string, string>, values: seq<string>) returns (result: map<string, string>)
    ensures result == ChoicesOf(labels, values)
  {
    result := map[];
    for i := 0 to |values|
      invariant result == ChoicesOf(labels, values[..i])
    {
      assert values[..i + 1][..i] == values[..i];
      result := result[LabelOf(labels, values[i]) := values[i]];
    }
    assert values[..|values|] == values;
  }

  /** For values whose labels are pairwise distinct, each value sits under its own label. */
  lemma {:induction false} ChoicesOfDistinct(labels: map<string, string>, values: seq<string>, k: nat)
    requires k < |values|
    requires forall p, q :: 0 <= p < q < |values| ==> LabelOf(labels, values[p]) != LabelOf(labels, values[q])
    ensures LabelOf(labels, values[k]) in ChoicesOf(labels, values)
    ensures ChoicesOf(labels, values)[LabelOf(labels, values[k])] == values[k]
  {
    var n := |values| - 1;
    if k < n {
      ChoicesOfDistinct(labels, values[..n], k);
    }
  }

  /** The five units get their five translated labels, each label naming its unit. */
  lemma UnitChoicesOfAllUnits()
    ensures ChoicesOf(UnitLabels, AllUnits) == map[
      "signature_coordinates_type.unit.option.pt" := "pt",
      "signature_coordinates_type.unit.option.mm" := "mm",
      "signature_coordinates_type.unit.option.cm" := "cm",
      "signature_coordinates_type.unit.option.px" := "px",
      "signature_coordinates_type.unit.option.in" := "in"]
  {
    assert ChoicesOf(UnitLabels, []) == map[];
    assert ["pt"][..0] == [];
    assert ChoicesOf(UnitLabels, ["pt"]) == ChoicesOf(UnitLabels, [])["signature_coordinates_type.unit.option.pt" := "pt"];
    assert ["pt", "mm"][..1] == ["pt"];
    assert ChoicesOf(UnitLabels, ["pt", "mm"]) == ChoicesOf(UnitLabels, ["pt"])["signature_coordinates_type.unit.option.mm" := "mm"];
    assert ["pt", "mm", "cm"][..2] == ["pt", "mm"];
    assert ChoicesOf(UnitLabels, ["pt", "mm", "cm"]) == ChoicesOf(UnitLabels, ["pt", "mm"])["signature_coordinates_type.unit.option.cm" := "cm"];
    assert ["pt", "mm", "cm", "px"][..3] == ["pt", "mm", "cm"];
    assert ChoicesOf(UnitLabels, ["pt", "mm", "cm", "px"]) == ChoicesOf(UnitLabels, ["pt", "mm", "cm"])["signature_coordinates_type.unit.option.px" := "px"];
    assert ["pt", "mm", "cm", "px", "in"][..4] == ["pt", "mm", "cm", "px"];
    assert ChoicesOf(UnitLabels, ["pt", "mm", "cm", "px", "in"]) == ChoicesOf(UnitLabels, ["pt", "mm", "cm", "px"])["signature_coordinates_type.unit.option.in" := "in"];
  }
}
