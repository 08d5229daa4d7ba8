/** Decoded JSON data as the three source languages see it: Python dicts and lists,
    PHP arrays, TypeScript `JSON.parse` results. */
module Values {
  import opened Wrappers
  import opened Text

  /** Integer and non-integer numbers stay apart because both Python's `json` and PHP's
      `json_decode` keep them apart. A PHP list array is a `List`; an associative PHP array is a
      `Dict` (the order of its keys is not modelled). */
  datatype Value =
    | Null
    | Bool(b: bool)
    | Int(i: int)
    | Float(f: real)
    | Str(s: string)
    | List(items: seq<Value>)
    | Dict(entries: map<string, Value>)

  type Object = map<string, Value>

  /** Truncation toward zero, as Python `int(float)` and PHP `(int)` of a float do. */
  function Truncate(f: real): int {
    if f >= 0.0 then f.Floor else -((-f).Floor)
  }

  // ---------------------------------------------------------------- Python

  /** Python truth value of decoded JSON data. */
  predicate PyTruthy(v: Value) {
    match v
    case Null => false
    case Bool(b) => b
    case Int(i) => i != 0
    case Float(f) => f != 0.0
    case Str(s) => s != []
    case List(xs) => xs != []
    case Dict(m) => m != map[]
  }

  /** Python `a or b`. */
  function PyOr(a: Value, b: Value): (r: Value)
    ensures PyTruthy(a) ==> r == a
    ensures !PyTruthy(a) ==> r == b
  {
    if PyTruthy(a) then a else b
  }

  /** Python `d.get(k)`. */
  function PyGet(d: Object, k: string): Value {
    if k in d then d[k] else Null
  }

  /** The parts of the Python runtime the model does not write out: `str()` of a float, list or
      dict; `float()` of a string (`None` where it raises ValueError); the format spec `.1f`. */
  datatype PyRuntime = PyRuntime(
    repr: Value -> string,
    parseFloat: string -> Option<real>,
    fixed1: real -> string)

  /** Python `str(v)`. */
  function PyStr(v: Value, py: PyRuntime): string {
    match v
    case Str(s) => s
    case Null => "None"
    case Bool(b) => if b then "True" else "False"
    case Int(i) => IntToDecimal(i)
    case _ => py.repr(v)
  }

  /** Python `float(v)`; `None` where it raises TypeError or ValueError. */
  function PyFloat(v: Value, py: PyRuntime): Option<real> {
    match v
    case Int(i) => Some(i as real)
    case Float(f) => Some(f)
    case Bool(b) => Some(if b then 1.0 else 0.0)
    case Str(s) => py.parseFloat(s)
    case _ => None
  }

  /** Python `int(v)`; `None` where it raises TypeError or ValueError. */
  function PyIntOf(v: Value): Option<int> {
    match v
    case Int(i) => Some(i)
    case Float(f) => Some(Truncate(f))
    case Bool(b) => Some(if b then 1 else 0)
    case Str(s) => PyInt(s)
    case _ => None
  }

  /** The exception Python's `int(v)` raises where `PyIntOf` has no value: TypeError for None,
      a list or a dict, ValueError for a string that is not an integer literal. */
  function PyIntError(v: Value): (e: string)
    requires PyIntOf(v).None?
    ensures e == "TypeError" <==> v.Null? || v.List? || v.Dict?
    ensures e == "ValueError" <==> v.Str?
  {
    if v.Str? then "ValueError" else "TypeError"
  }

  // ---------------------------------------------------------------- PHP

  /** PHP `isset($d[$k])`: present and not null. */
  predicate PhpIsset(d: Object, k: string) {
    k in d && d[k] != Null
  }

  /** PHP `$d[$k] ?? $default`. */
  function PhpCoalesce(d: Object, k: string, default: Value): (r: Value)
    ensures PhpIsset(d, k) ==> r == d[k]
    ensures !PhpIsset(d, k) ==> r == default
  {
    if PhpIsset(d, k) then d[k] else default
  }

  predicate PhpIsArray(v: Value) {
    v.List? || v.Dict?
  }

  /** PHP `$v === []`: an array without entries. */
  predicate PhpIsEmptyArray(v: Value) {
    v == List([]) || v == Dict(map[])
  }

  /** The entries of a list array: its items under their positions, written as decimal keys
      (PHP stores the integer keys that `"5"` and `5` both become as one key). */
  function ListEntries(xs: seq<Value>, n: nat): map<string, Value>
    requires n <= |xs|
  {
    if n == 0 then map[] else ListEntries(xs, n - 1)[IntToDecimal(n - 1) := xs[n - 1]]
  }

  /** The key-value entries of a PHP array; a scalar has none. */
  function PhpEntries(v: Value): map<string, Value> {
    match v
    case Dict(m) => m
    case List(xs) => ListEntries(xs, |xs|)
    case _ => map[]
  }

  /** The values a PHP `foreach` visits: a list's items in order; for an associative array, the
      values under the keys `"0"`, `"1"`, ... that are present (the map keeps no insertion
      order); nothing for a scalar. */
  function PhpValues(v: Value): seq<Value> {
    match v
    case List(xs) => xs
    case Dict(m) => DictItems(m, |m|)
    case _ => []
  }

  function DictItems(m: map<string, Value>, n: nat): seq<Value> {
    if n == 0 then []
    else DictItems(m, n - 1) + (if IntToDecimal(n - 1) in m then [m[IntToDecimal(n - 1)]] else [])
  }

  /** PHP `count($v)` of an array. */
  function PhpCount(v: Value): nat
    requires PhpIsArray(v)
  {
    if v.List? then |v.items| else |v.entries|
  }

  /** PHP `empty($v)` of a value that is present. */
  predicate PhpEmpty(v: Value) {
    match v
    case Null => true
    case Bool(b) => !b
    case Int(i) => i == 0
    case Float(f) => f == 0.0
    case Str(s) => s == "" || s == "0"
    case List(xs) => xs == []
    case Dict(m) => m == map[]
  }

  /** The parts of the PHP runtime the model does not write out: `(string)` of a float, and
      `(int)` and `(float)` of a string (leading-numeric parsing). */
  datatype PhpRuntime = PhpRuntime(
    floatToString: real -> string,
    stringToInt: string -> int,
    stringToFloat: string -> real)

  /** PHP `(string) $v` of a scalar; arrays convert to "Array". */
  function PhpToString(v: Value, php: PhpRuntime): string {
    match v
    case Str(s) => s
    case Null => ""
    case Bool(b) => if b then "1" else ""
    case Int(i) => IntToDecimal(i)
    case Float(f) => php.floatToString(f)
    case _ => "Array"
  }

  /** PHP `(int) $v`. */
  function PhpToInt(v: Value, php: PhpRuntime): int {
    match v
    case Int(i) => i
    case Float(f) => Truncate(f)
    case Bool(b) => if b then 1 else 0
    case Null => 0
    case Str(s) => php.stringToInt(s)
    case List(xs) => if xs == [] then 0 else 1
    case Dict(m) => if m == map[] then 0 else 1
  }

  /** PHP `(float) $v`. */
  function PhpToFloat(v: Value, php: PhpRuntime): real {
    match v
    case Int(i) => i as real
    case Float(f) => f
    case Bool(b) => if b then 1.0 else 0.0
    case Null => 0.0
    case Str(s) => php.stringToFloat(s)
    case List(xs) => if xs == [] then 0.0 else 1.0
    case Dict(m) => if m == map[] then 0.0 else 1.0
  }

  /** PHP `(bool) $v`. */
  predicate PhpToBool(v: Value) {
    !PhpEmpty(v)
  }
}
